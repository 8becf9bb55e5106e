/** Compaction of a telemetry series: the first and the last sample are kept, the
    samples between them are cut into equal buckets, and of each bucket the
    smallest and the largest value are kept in time order. */
module TelemetryCompaction {
  datatype Sample = Sample(timeSec: real, value: real)

  const MAX_CACHED: nat := 4096
  const COMPACTED: nat := 2048
  const BUCKETS: nat := (COMPACTED - 2) / 2

  // Strictly increasing in time.
  predicate Increasing(c: seq<Sample>) {
    forall i, j :: 0 <= i < j < |c| ==> c[i].timeSec < c[j].timeSec
  }

  // The first index of bucket `b` in a series of `n` samples.
  function BucketBegin(n: nat, b: nat): nat
    requires n >= 2
  {
    1 + (n - 2) * b / BUCKETS
  }

  // The first smallest sample of c[lo..hi].
  function MinIndex(c: seq<Sample>, lo: nat, hi: nat): (m: nat)
    requires lo < hi <= |c|
    ensures lo <= m < hi
    ensures forall k :: lo <= k < hi ==> c[m].value <= c[k].value
    decreases hi
  {
    if hi == lo + 1 then lo
    else
      var m := MinIndex(c, lo, hi - 1);
      if c[hi - 1].value < c[m].value then hi - 1 else m
  }

  // The first largest sample of c[lo..hi].
  function MaxIndex(c: seq<Sample>, lo: nat, hi: nat): (m: nat)
    requires lo < hi <= |c|
    ensures lo <= m < hi
    ensures forall k :: lo <= k < hi ==> c[m].value >= c[k].value
    decreases hi
  {
    if hi == lo + 1 then lo
    else
      var m := MaxIndex(c, lo, hi - 1);
      if c[hi - 1].value > c[m].value then hi - 1 else m
  }

  function Chronological(first: Sample, second: Sample): seq<Sample> {
    if first.timeSec <= second.timeSec then
      if second.timeSec != first.timeSec then [first, second] else [first]
    else
      [second, first]
  }

  // A series long enough that no bucket is empty.
  predicate Compactable(c: seq<Sample>) {
    |c| > MAX_CACHED
  }

  function BucketExtremes(c: seq<Sample>, b: nat): seq<Sample>
    requires Compactable(c) && b < BUCKETS
  {
    BucketsTile(|c|, b);
    var lo, hi := BucketBegin(|c|, b), BucketBegin(|c|, b + 1);
    Chronological(c[MinIndex(c, lo, hi)], c[MaxIndex(c, lo, hi)])
  }

  // The first sample and the extremes of the first `b` buckets.
  function CompactedUpTo(c: seq<Sample>, b: nat): (a: seq<Sample>)
    requires Compactable(c) && b <= BUCKETS
    ensures |a| > 0
  {
    if b == 0 then [c[0]] else CompactedUpTo(c, b - 1) + BucketExtremes(c, b - 1)
  }

  function Compacted(c: seq<Sample>): seq<Sample>
    requires Compactable(c)
  {
    var a, last := CompactedUpTo(c, BUCKETS), c[|c| - 1];
    if a[|a| - 1].timeSec != last.timeSec then a + [last] else a
  }

  /** The integer-division boundaries: the buckets start after the first sample,
      end before the last, and none is empty. */
  lemma BucketsTile(n: nat, b: nat)
    requires n > MAX_CACHED && b < BUCKETS
    ensures BucketBegin(n, 0) == 1 && BucketBegin(n, BUCKETS) == n - 1
    ensures 1 <= BucketBegin(n, b) < BucketBegin(n, b + 1) <= n - 1
  {
    hide BucketBegin;
    FirstBucket(n);
    BucketWidth(n, b);
    BeginMonotone(n, 0, b);
    BeginMonotone(n, b + 1, BUCKETS);
  }

  lemma FirstBucket(n: nat)
    requires n >= 2
    ensures BucketBegin(n, 0) == 1
  {
  }

  lemma BucketWidth(n: nat, b: nat)
    requires n > MAX_CACHED
    ensures BucketBegin(n, b) + 4 <= BucketBegin(n, b + 1)
    ensures BucketBegin(n, BUCKETS) == n - 1
  {
    assert (n - 2) * (b + 1) == (n - 2) * b + (n - 2);
    DivideSum((n - 2) * b, n - 2);
    DivideProduct(n - 2);
  }

  lemma DivideSum(x: nat, width: nat)
    requires width >= 4 * BUCKETS
    ensures (x + width) / BUCKETS >= x / BUCKETS + 4
  {
  }

  lemma DivideProduct(x: nat)
    ensures x * BUCKETS / BUCKETS == x
  {
  }

  lemma {:induction false} BeginMonotone(n: nat, a: nat, b: nat)
    requires n > MAX_CACHED && a <= b
    ensures BucketBegin(n, a) <= BucketBegin(n, b)
    decreases b
  {
    hide BucketBegin;
    if a < b {
      BucketWidth(n, b - 1);
      BeginMonotone(n, a, b - 1);
    }
  }

  /** Every interior sample lies in exactly one bucket. */
  lemma EverySampleInOneBucket(n: nat, k: nat) returns (b: nat)
    requires n > MAX_CACHED && 1 <= k < n - 1
    ensures b < BUCKETS && BucketBegin(n, b) <= k < BucketBegin(n, b + 1)
    ensures forall a: nat :: a < BUCKETS && BucketBegin(n, a) <= k < BucketBegin(n, a + 1) ==> a == b
  {
    b := 0;
    BucketsTile(n, 0);
    while k >= BucketBegin(n, b + 1)
      invariant b < BUCKETS && BucketBegin(n, b) <= k
      decreases BUCKETS - b
    {
      b := b + 1;
      BucketsTile(n, if b < BUCKETS then b else 0);
    }
    forall a: nat | a < BUCKETS && BucketBegin(n, a) <= k < BucketBegin(n, a + 1)
      ensures a == b
    {
      if a < b {
        BeginMonotone(n, a + 1, b);
      } else if b < a {
        BeginMonotone(n, b + 1, a);
      }
    }
  }

  predicate From(s: Sample, c: seq<Sample>, lo: nat, hi: nat)
    requires hi <= |c|
  {
    exists i :: lo <= i < hi && c[i] == s
  }

  // Every sample of `a` is one of c[lo..hi].
  predicate Within(a: seq<Sample>, c: seq<Sample>, lo: nat, hi: nat)
    requires hi <= |c|
  {
    forall k :: 0 <= k < |a| ==> From(a[k], c, lo, hi)
  }

  lemma IncreasingAppend(a: seq<Sample>, b: seq<Sample>, c: seq<Sample>, lo: nat, mid: nat, hi: nat)
    requires Increasing(c) && lo <= mid <= hi <= |c|
    requires Increasing(a) && Within(a, c, lo, mid)
    requires Increasing(b) && Within(b, c, mid, hi)
    ensures Increasing(a + b) && Within(a + b, c, lo, hi)
  {
    forall i, j | 0 <= i < |a| && 0 <= j < |b|
      ensures a[i].timeSec < b[j].timeSec
    {
      assert From(a[i], c, lo, mid) && From(b[j], c, mid, hi);
    }
    forall k | 0 <= k < |a + b|
      ensures From((a + b)[k], c, lo, hi)
    {
      assert if k < |a| then From(a[k], c, lo, mid) else From(b[k - |a|], c, mid, hi);
    }
  }

  lemma ExtremesOfBucket(c: seq<Sample>, b: nat)
    requires Compactable(c) && b < BUCKETS && Increasing(c)
    ensures BucketBegin(|c|, b) <= BucketBegin(|c|, b + 1) <= |c|
    ensures Increasing(BucketExtremes(c, b)) && 1 <= |BucketExtremes(c, b)| <= 2
    ensures Within(BucketExtremes(c, b), c, BucketBegin(|c|, b), BucketBegin(|c|, b + 1))
    ensures forall k :: BucketBegin(|c|, b) <= k < BucketBegin(|c|, b + 1) ==>
        Bracketed(BucketExtremes(c, b), c[k].value)
  {
    BucketsTile(|c|, b);
    var lo, hi := BucketBegin(|c|, b), BucketBegin(|c|, b + 1);
    var least, most := MinIndex(c, lo, hi), MaxIndex(c, lo, hi);
    var e := BucketExtremes(c, b);
    assert c[least] in e && c[most] in e;
  }

  // Some sample of `a` is at most `v`, and some is at least `v`.
  predicate Bracketed(a: seq<Sample>, v: real) {
    (exists s :: s in a && s.value <= v) && (exists s :: s in a && s.value >= v)
  }

  lemma BracketedAppend(a: seq<Sample>, b: seq<Sample>, v: real)
    requires Bracketed(a, v) || Bracketed(b, v)
    ensures Bracketed(a + b, v)
  {
    if Bracketed(a, v) {
      var s :| s in a && s.value <= v;
      var t :| t in a && t.value >= v;
      assert s in a + b && t in a + b;
    } else {
      var s :| s in b && s.value <= v;
      var t :| t in b && t.value >= v;
      assert s in a + b && t in a + b;
    }
  }

  lemma {:induction false} CompactedUpToProperties(c: seq<Sample>, b: nat)
    requires Compactable(c) && b <= BUCKETS && Increasing(c)
    ensures 1 <= BucketBegin(|c|, b) <= |c| - 1
    ensures b + 1 <= |CompactedUpTo(c, b)| <= 1 + 2 * b
    ensures CompactedUpTo(c, b)[0] == c[0]
    ensures Increasing(CompactedUpTo(c, b)) && Within(CompactedUpTo(c, b), c, 0, BucketBegin(|c|, b))
    ensures forall k :: 0 <= k < BucketBegin(|c|, b) ==> Bracketed(CompactedUpTo(c, b), c[k].value)
    decreases b
  {
    hide Bracketed, BucketExtremes;
    BucketsTile(|c|, if b == 0 then 0 else b - 1);
    if b == 0 {
      FirstBracketed(c);
    } else {
      CompactedUpToProperties(c, b - 1);
      ExtremesOfBucket(c, b - 1);
      var a, e := CompactedUpTo(c, b - 1), BucketExtremes(c, b - 1);
      IncreasingAppend(a, e, c, 0, BucketBegin(|c|, b - 1), BucketBegin(|c|, b));
      forall k | 0 <= k < BucketBegin(|c|, b)
        ensures Bracketed(a + e, c[k].value)
      {
        BracketedAppend(a, e, c[k].value);
      }
    }
  }

  lemma FirstBracketed(c: seq<Sample>)
    requires |c| > 0
    ensures Bracketed([c[0]], c[0].value)
  {
    assert c[0] in [c[0]];
  }

  /** Compaction of a strictly increasing series: at most 2048 samples, strictly
      increasing, all from the series, with its first and last sample; and every
      sample before the last lies between two that are kept before the last. */
  lemma CompactionKeepsShape(c: seq<Sample>)
    requires Compactable(c) && Increasing(c)
    ensures 2 <= |Compacted(c)| <= COMPACTED
    ensures Increasing(Compacted(c)) && Within(Compacted(c), c, 0, |c|)
    ensures Compacted(c)[0] == c[0] && Compacted(c)[|Compacted(c)| - 1] == c[|c| - 1]
    ensures forall k :: 0 <= k < |c| - 1 ==> Bracketed(Compacted(c)[..|Compacted(c)| - 1], c[k].value)
  {
    hide Bracketed, CompactedUpTo;
    BucketsTile(|c|, 0);
    LastKeptEarlier(c);
    CompactedUpToProperties(c, BUCKETS);
    var a, last := CompactedUpTo(c, BUCKETS), c[|c| - 1];
    IncreasingAppend(a, [last], c, 0, |c| - 1, |c|);
    assert Compacted(c)[..|Compacted(c)| - 1] == a;
  }

  /** Of every bucket, a smallest and a largest sample are kept. */
  lemma BucketExtremesKept(c: seq<Sample>, b: nat)
    requires Compactable(c) && Increasing(c) && b < BUCKETS
    ensures var lo, hi := BucketBegin(|c|, b), BucketBegin(|c|, b + 1);
            && 1 <= lo < hi <= |c| - 1
            && c[MinIndex(c, lo, hi)] in Compacted(c)
            && c[MaxIndex(c, lo, hi)] in Compacted(c)
  {
    hide CompactedUpTo, BucketBegin;
    BucketsTile(|c|, b);
    var lo, hi := BucketBegin(|c|, b), BucketBegin(|c|, b + 1);
    ExtremesIn(c, c[MinIndex(c, lo, hi)], b, BUCKETS);
    ExtremesIn(c, c[MaxIndex(c, lo, hi)], b, BUCKETS);
    LastKeptEarlier(c);
  }

  // `s` is the smallest or the largest sample of a bucket, the first such.
  predicate IsExtreme(c: seq<Sample>, b: nat, s: Sample)
    requires Compactable(c) && b < BUCKETS
  {
    BucketsTile(|c|, b);
    var lo, hi := BucketBegin(|c|, b), BucketBegin(|c|, b + 1);
    s == c[MinIndex(c, lo, hi)] || s == c[MaxIndex(c, lo, hi)]
  }

  lemma {:induction false} ExtremesIn(c: seq<Sample>, s: Sample, b: nat, n: nat)
    requires Compactable(c) && Increasing(c) && b < n <= BUCKETS
    requires IsExtreme(c, b, s)
    ensures s in CompactedUpTo(c, n)
    decreases n
  {
    if b == n - 1 {
      ExtremesListed(c, b, s);
    } else {
      hide IsExtreme, BucketExtremes;
      ExtremesIn(c, s, b, n - 1);
    }
  }

  lemma ExtremesListed(c: seq<Sample>, b: nat, s: Sample)
    requires Compactable(c) && Increasing(c) && b < BUCKETS && IsExtreme(c, b, s)
    ensures s in BucketExtremes(c, b)
  {
    hide BucketBegin;
    BucketsTile(|c|, b);
  }

  // The code

  method AppendChronologically(output: seq<Sample>, first: Sample, second: Sample) returns (appended: seq<Sample>)
    ensures appended == output + Chronological(first, second)
  {
    if first.timeSec <= second.timeSec {
      appended := output + [first];
      if second.timeSec != first.timeSec {
        appended := appended + [second];
      }
    } else {
      appended := output + [second];
      appended := appended + [first];
    }
  }

  // What a series becomes after a sample was added to it.
  function Limited(c: seq<Sample>): seq<Sample> {
    if Compactable(c) then Compacted(c) else c
  }

  method CompactTelemetryHistory(samples: seq<Sample>) returns (compacted: seq<Sample>)
    ensures compacted == Limited(samples)
  {
    if |samples| <= MAX_CACHED {
      return samples;
    }
    hide CompactedUpTo, BucketExtremes, BucketBegin, Chronological;
    NoBucketsYet(samples);
    compacted := [samples[0]];
    var bucketCount := (COMPACTED - 2) / 2;
    for bucket := 0 to bucketCount
      invariant compacted == CompactedUpTo(samples, bucket)
    {
      hide MinIndex, MaxIndex;
      var begin, end := BucketRange(|samples|, bucket);
      if begin >= end {
        continue;
      }
      var minimum, maximum := FindExtremes(samples, begin, end);
      compacted := AppendChronologically(compacted, samples[minimum], samples[maximum]);
      OneMoreBucket(samples, bucket);
    }
    if compacted[|compacted| - 1].timeSec != samples[|samples| - 1].timeSec {
      compacted := compacted + [samples[|samples| - 1]];
    }
  }

  // The inner loop of `CompactTelemetryHistory`.
  method FindExtremes(samples: seq<Sample>, begin: nat, end: nat) returns (minimum: nat, maximum: nat)
    requires begin < end <= |samples|
    ensures minimum == MinIndex(samples, begin, end)
    ensures maximum == MaxIndex(samples, begin, end)
  {
    minimum, maximum := begin, begin;
    for sample := begin + 1 to end
      invariant minimum == MinIndex(samples, begin, sample)
      invariant maximum == MaxIndex(samples, begin, sample)
    {
      if samples[sample].value < samples[minimum].value {
        minimum := sample;
      }
      if samples[sample].value > samples[maximum].value {
        maximum := sample;
      }
    }
  }

  // The boundaries of one bucket.
  method BucketRange(sampleCount: nat, bucket: nat) returns (begin: nat, end: nat)
    requires sampleCount > MAX_CACHED && bucket < BUCKETS
    ensures begin == BucketBegin(sampleCount, bucket) && end == BucketBegin(sampleCount, bucket + 1)
    ensures 1 <= begin < end <= sampleCount - 1
  {
    var interiorCount := sampleCount - 2;
    begin := 1 + interiorCount * bucket / BUCKETS;
    end := 1 + interiorCount * (bucket + 1) / BUCKETS;
    BucketsTile(sampleCount, bucket);
  }

  lemma NoBucketsYet(c: seq<Sample>)
    requires Compactable(c)
    ensures CompactedUpTo(c, 0) == [c[0]]
  {
  }

  lemma OneMoreBucket(c: seq<Sample>, b: nat)
    requires Compactable(c) && b < BUCKETS
    ensures 1 <= BucketBegin(|c|, b) < BucketBegin(|c|, b + 1) <= |c| - 1
    ensures CompactedUpTo(c, b + 1) == CompactedUpTo(c, b)
         + Chronological(c[MinIndex(c, BucketBegin(|c|, b), BucketBegin(|c|, b + 1))],
                         c[MaxIndex(c, BucketBegin(|c|, b), BucketBegin(|c|, b + 1))])
  {
    BucketsTile(|c|, b);
  }

  lemma LastKeptEarlier(c: seq<Sample>)
    requires Compactable(c) && Increasing(c)
    ensures var a := CompactedUpTo(c, BUCKETS); |a| > 0 && a[|a| - 1].timeSec < c[|c| - 1].timeSec
  {
    BucketsTile(|c|, 0);
    CompactedUpToProperties(c, BUCKETS);
  }
}
