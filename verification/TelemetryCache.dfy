/** The client's telemetry cache: a bounded, lossy view of the frames received so
    far, and the plain history it stands for. */
module TelemetryCache {
  import opened Prelude
  import opened TelemetryCompaction

  datatype TimeRange = TimeRange(minSec: real, maxSec: real)
  datatype Series = Series(path: string, samples: seq<Sample>)
  datatype Snapshot = Snapshot(available: bool, version: nat, publishedTimeRange: Option<TimeRange>,
                               series: seq<Series>)

  datatype TelemetryValue = TelemetryValue(path: string, value: real)
  datatype Frame = Frame(available: bool, sequence: nat, timestamp: real, values: seq<TelemetryValue>)

  datatype Slot = Primary | Baseline

  const EMPTY := Snapshot(false, 0, None, [])

  // Paths are ordered as byte strings.

  predicate Less(a: string, b: string) {
    if b == [] then false
    else if a == [] then true
    else if a[0] != b[0] then a[0] < b[0]
    else Less(a[1..], b[1..])
  }

  lemma {:induction false} LessIrreflexive(a: string)
    ensures !Less(a, a)
  {
    if a != [] {
      LessIrreflexive(a[1..]);
    }
  }

  lemma {:induction false} LessTransitive(a: string, b: string, c: string)
    requires Less(a, b) && Less(b, c)
    ensures Less(a, c)
  {
    if a != [] && a[0] == b[0] && b[0] == c[0] {
      LessTransitive(a[1..], b[1..], c[1..]);
    }
  }

  lemma {:induction false} LessTotal(a: string, b: string)
    requires !Less(a, b) && a != b
    ensures Less(b, a)
  {
    if b != [] && a[0] == b[0] {
      assert a == [a[0]] + a[1..] && b == [b[0]] + b[1..];
      LessTotal(a[1..], b[1..]);
    }
  }

  // Sorted by path, each path once.
  predicate Sorted(series: seq<Series>) {
    forall i, j :: 0 <= i < j < |series| ==> Less(series[i].path, series[j].path)
  }

  // The first series whose path is not before `path`.
  function LowerBound(series: seq<Series>, path: string): (i: nat)
    ensures i <= |series|
    ensures forall k :: 0 <= k < i ==> Less(series[k].path, path)
    ensures i < |series| ==> !Less(series[i].path, path)
  {
    if series == [] || !Less(series[0].path, path) then 0 else 1 + LowerBound(series[1..], path)
  }

  // What the code does with one frame

  // One value added to a series: the last sample is overwritten at an equal time.
  function Recorded(samples: seq<Sample>, timeSec: real, value: real): seq<Sample> {
    if |samples| > 0 && samples[|samples| - 1].timeSec == timeSec
    then samples[|samples| - 1 := Sample(timeSec, value)]
    else Limited(samples + [Sample(timeSec, value)])
  }

  function WithValue(series: seq<Series>, timeSec: real, v: TelemetryValue): seq<Series> {
    var i := LowerBound(series, v.path);
    if i == |series| || series[i].path != v.path
    then series[..i] + [Series(v.path, Recorded([], timeSec, v.value))] + series[i..]
    else series[i := series[i].(samples := Recorded(series[i].samples, timeSec, v.value))]
  }

  function WithValues(series: seq<Series>, timeSec: real, values: seq<TelemetryValue>): seq<Series> {
    if values == [] then series
    else WithValue(WithValues(series, timeSec, values[..|values| - 1]), timeSec, values[|values| - 1])
  }

  predicate IsRewind(s: Snapshot, timestamp: real) {
    s.publishedTimeRange.Some? && timestamp < s.publishedTimeRange.value.maxSec
  }

  function Min(a: real, b: real): real { if b < a then b else a }
  function Max(a: real, b: real): real { if a < b then b else a }

  function Received(s: Snapshot, f: Frame): Snapshot {
    var kept := if IsRewind(s, f.timestamp) then s.(series := [], publishedTimeRange := None) else s;
    var range :=
      if kept.publishedTimeRange.None? then TimeRange(f.timestamp, f.timestamp)
      else TimeRange(Min(kept.publishedTimeRange.value.minSec, f.timestamp),
                     Max(kept.publishedTimeRange.value.maxSec, f.timestamp));
    Snapshot(f.available, f.sequence, Some(range), WithValues(kept.series, f.timestamp, f.values))
  }

  /** What a frame shows at once: it is the last one, and the range ends at it; the range
      begins where it did, or with this frame if it is the first or goes back in time. */
  lemma FrameShows(s: Snapshot, f: Frame)
    requires s.publishedTimeRange.Some? ==> s.publishedTimeRange.value.minSec <= s.publishedTimeRange.value.maxSec
    ensures var t, before := Received(s, f), s.publishedTimeRange;
            && t.available == f.available && t.version == f.sequence
            && t.publishedTimeRange
               == Some(TimeRange(if before.Some? && f.timestamp >= before.value.maxSec then before.value.minSec
                                 else f.timestamp,
                                 f.timestamp))
  {
    hide WithValues;
  }

  class Cache {
    var primary: Snapshot
    var baseline: Snapshot

    constructor ()
      ensures primary == EMPTY && baseline == EMPTY
    {
      primary, baseline := EMPTY, EMPTY;
    }

    method ReceiveTelemetry(slot: Slot, frame: Frame)
      modifies this
      ensures primary == if slot.Primary? then Received(old(primary), frame) else old(primary)
      ensures baseline == if slot.Baseline? then Received(old(baseline), frame) else old(baseline)
    {
      hide WithValues;
      var updated := if slot.Primary? then primary else baseline;
      if updated.publishedTimeRange.Some? && frame.timestamp < updated.publishedTimeRange.value.maxSec {
        updated := updated.(series := []);
        updated := updated.(publishedTimeRange := None);
      }
      updated := updated.(available := frame.available);
      updated := updated.(version := frame.sequence);
      if updated.publishedTimeRange.None? {
        updated := updated.(publishedTimeRange := Some(TimeRange(frame.timestamp, frame.timestamp)));
      } else {
        var range := updated.publishedTimeRange.value;
        updated := updated.(publishedTimeRange :=
          Some(TimeRange(Min(range.minSec, frame.timestamp), Max(range.maxSec, frame.timestamp))));
      }
      var series := ReceiveValues(updated.series, frame.timestamp, frame.values);
      updated := updated.(series := series);
      if slot.Primary? {
        primary := updated;
      } else {
        baseline := updated;
      }
    }

    // The loop over the values of a frame.
    static method ReceiveValues(series: seq<Series>, timestamp: real, values: seq<TelemetryValue>)
        returns (updated: seq<Series>)
      ensures updated == WithValues(series, timestamp, values)
    {
      hide WithValue;
      updated := series;
      for index := 0 to |values|
        invariant updated == WithValues(series, timestamp, values[..index])
      {
        assert values[..index + 1][..index] == values[..index];
        updated := ReceiveValue(updated, timestamp, values[index]);
      }
      assert values[..|values|] == values;
    }

    // The body of that loop.
    static method ReceiveValue(series: seq<Series>, timestamp: real, value: TelemetryValue)
        returns (updated: seq<Series>)
      ensures updated == WithValue(series, timestamp, value)
    {
      hide Limited;
      updated := series;
      var position := LowerBound(series, value.path);
      if position == |updated| || updated[position].path != value.path {
        updated := updated[..position] + [Series(value.path, [])] + updated[position..];
      }
      var samples := updated[position].samples;
      if |samples| > 0 && samples[|samples| - 1].timeSec == timestamp {
        samples := samples[|samples| - 1 := samples[|samples| - 1].(value := value.value)];
      } else {
        samples := CompactTelemetryHistory(samples + [Sample(timestamp, value.value)]);
      }
      updated := updated[position := updated[position].(samples := samples)];
    }
  }

  // The history the cache stands for: every value since the last rewind, the last
  // write per path and time winning.
  datatype History = History(span: Option<TimeRange>, writes: map<string, map<real, real>>)

  const NO_HISTORY := History(None, map[])

  function Written(writes: map<string, map<real, real>>, timeSec: real, v: TelemetryValue)
      : map<string, map<real, real>>
  {
    var before := if v.path in writes then writes[v.path] else map[];
    writes[v.path := before[timeSec := v.value]]
  }

  function AllWritten(writes: map<string, map<real, real>>, timeSec: real, values: seq<TelemetryValue>)
      : map<string, map<real, real>>
  {
    if values == [] then writes
    else Written(AllWritten(writes, timeSec, values[..|values| - 1]), timeSec, values[|values| - 1])
  }

  function Observed(h: History, f: Frame): History {
    var kept := if h.span.Some? && f.timestamp < h.span.value.maxSec then NO_HISTORY else h;
    var first := if kept.span.Some? then kept.span.value.minSec else f.timestamp;
    History(Some(TimeRange(first, f.timestamp)), AllWritten(kept.writes, f.timestamp, f.values))
  }

  function CacheAfter(frames: seq<Frame>): Snapshot {
    if frames == [] then EMPTY else Received(CacheAfter(frames[..|frames| - 1]), frames[|frames| - 1])
  }

  function HistoryAfter(frames: seq<Frame>): History {
    if frames == [] then NO_HISTORY else Observed(HistoryAfter(frames[..|frames| - 1]), frames[|frames| - 1])
  }

  // Refinement

  /** A cached series stands for the writes `m` of one path, none later than `now`. */
  predicate SeriesRefines(c: seq<Sample>, m: map<real, real>, now: real) {
    && 0 < |c| <= MAX_CACHED
    && Increasing(c)
    && c[|c| - 1].timeSec <= now
    // every cached sample is a write
    && (forall k :: 0 <= k < |c| ==> c[k].timeSec in m && m[c[k].timeSec] == c[k].value)
    // the first and the last write are cached
    && (forall t :: t in m ==> c[0].timeSec <= t <= c[|c| - 1].timeSec)
    // before the last write, the smallest and the largest value are cached
    && (forall t :: t in m && t < c[|c| - 1].timeSec ==> Bracketed(c[..|c| - 1], m[t]))
    // nothing is lost before the limit is reached
    && (|m| <= MAX_CACHED ==> |c| == |m|)
  }

  predicate SeriesListRefines(series: seq<Series>, writes: map<string, map<real, real>>, now: real) {
    && Sorted(series)
    && (forall i :: 0 <= i < |series| ==> series[i].path in writes)
    && (forall i :: 0 <= i < |series| && series[i].path in writes ==>
        SeriesRefines(series[i].samples, writes[series[i].path], now))
    && (forall p :: p in writes ==> exists i :: 0 <= i < |series| && series[i].path == p)
  }

  predicate Refines(s: Snapshot, h: History) {
    && s.publishedTimeRange == h.span
    && (h.span.None? ==> s.series == [] && h.writes == map[])
    && (h.span.Some? ==>
          && h.span.value.minSec <= h.span.value.maxSec
          && SeriesListRefines(s.series, h.writes, h.span.value.maxSec))
  }

  lemma OverwriteRefines(c: seq<Sample>, m: map<real, real>, now: real, value: real)
    requires SeriesRefines(c, m, now) && c[|c| - 1].timeSec == now
    ensures SeriesRefines(Recorded(c, now, value), m[now := value], now)
  {
    hide Bracketed;
    var d := Recorded(c, now, value);
    assert d[..|d| - 1] == c[..|c| - 1];
    assert now in m;
    assert m[now := value].Keys == m.Keys;
    assert |m[now := value]| == |m|;
  }

  lemma AppendRefines(c: seq<Sample>, m: map<real, real>, before: real, now: real, value: real)
    requires SeriesRefines(c, m, before) && before <= now && c[|c| - 1].timeSec != now
    ensures SeriesRefines(Recorded(c, now, value), m[now := value], now)
  {
    hide Limited, Bracketed;
    var n := m[now := value];
    assert now !in m;
    assert n.Keys == m.Keys + {now};
    assert |n| == |m| + 1;
    var d := c + [Sample(now, value)];
    assert d[..|d| - 1] == c;
    forall t | t in n && t < now
      ensures Bracketed(d[..|d| - 1], n[t])
    {
      if t == c[|c| - 1].timeSec {
        LastBracketed(c);
      } else {
        BracketedAppend(c[..|c| - 1], [c[|c| - 1]], m[t]);
        assert c[..|c| - 1] + [c[|c| - 1]] == c;
      }
    }
    LimitRefines(d, n, now);
  }

  lemma LastBracketed(c: seq<Sample>)
    requires |c| > 0
    ensures Bracketed(c, c[|c| - 1].value)
  {
    assert c[|c| - 1] in c;
  }

  // Compaction keeps the refinement of a series that just grew by its last sample.
  lemma LimitRefines(d: seq<Sample>, n: map<real, real>, now: real)
    requires 0 < |d| <= MAX_CACHED + 1 && Increasing(d) && d[|d| - 1].timeSec <= now
    requires forall k :: 0 <= k < |d| ==> d[k].timeSec in n && n[d[k].timeSec] == d[k].value
    requires forall t :: t in n ==> d[0].timeSec <= t <= d[|d| - 1].timeSec
    requires forall t :: t in n && t < d[|d| - 1].timeSec ==> Bracketed(d[..|d| - 1], n[t])
    requires |n| <= MAX_CACHED ==> |d| == |n|
    ensures SeriesRefines(Limited(d), n, now)
  {
    hide Compacted, Bracketed, From, Increasing;
    if Compactable(d) {
      CompactionKeepsShape(d);
      var out := Compacted(d);
      forall k | 0 <= k < |out|
        ensures out[k].timeSec in n && n[out[k].timeSec] == out[k].value
      {
        Picked(out[k], d, n);
      }
      forall t | t in n && t < d[|d| - 1].timeSec
        ensures Bracketed(out[..|out| - 1], n[t])
      {
        BracketedThrough(d[..|d| - 1], out[..|out| - 1], n[t]);
      }
    }
  }

  lemma Picked(s: Sample, d: seq<Sample>, n: map<real, real>)
    requires From(s, d, 0, |d|)
    requires forall k :: 0 <= k < |d| ==> d[k].timeSec in n && n[d[k].timeSec] == d[k].value
    ensures s.timeSec in n && n[s.timeSec] == s.value
  {
  }

  lemma BracketedThrough(a: seq<Sample>, b: seq<Sample>, v: real)
    requires Bracketed(a, v)
    requires forall k :: 0 <= k < |a| ==> Bracketed(b, a[k].value)
    ensures Bracketed(b, v)
  {
    var s :| s in a && s.value <= v;
    var t :| t in a && t.value >= v;
    var i :| 0 <= i < |a| && a[i] == s;
    var j :| 0 <= j < |a| && a[j] == t;
    assert Bracketed(b, a[i].value) && Bracketed(b, a[j].value);
  }

  lemma FirstRefines(now: real, value: real)
    ensures SeriesRefines(Recorded([], now, value), map[now := value], now)
  {
    assert [] + [Sample(now, value)] == [Sample(now, value)];
    assert |map[now := value]| == 1;
  }

  lemma LaterStillRefines(c: seq<Sample>, m: map<real, real>, before: real, now: real)
    requires SeriesRefines(c, m, before) && before <= now
    ensures SeriesRefines(c, m, now)
  {
  }

  // The path is not in a sorted list if it is not at its lower bound.
  lemma AbsentPath(series: seq<Series>, path: string)
    requires Sorted(series)
    requires var i := LowerBound(series, path); i == |series| || series[i].path != path
    ensures forall k :: 0 <= k < |series| ==> series[k].path != path
    ensures forall k :: LowerBound(series, path) <= k < |series| ==> Less(path, series[k].path)
  {
    var i := LowerBound(series, path);
    LessIrreflexive(path);
    forall k | i <= k < |series|
      ensures Less(path, series[k].path)
    {
      LessTotal(series[i].path, path);
      if k > i {
        LessTransitive(path, series[i].path, series[k].path);
      }
    }
  }

  lemma ValueRefines(series: seq<Series>, writes: map<string, map<real, real>>, now: real, v: TelemetryValue)
    requires SeriesListRefines(series, writes, now)
    ensures SeriesListRefines(WithValue(series, now, v), Written(writes, now, v), now)
  {
    hide SeriesRefines, Recorded, Less, LowerBound;
    LowerBoundInRange(series, v.path);
    var i := LowerBound(series, v.path);
    if i == |series| || series[i].path != v.path {
      AbsentPath(series, v.path);
      InsertRefines(series, writes, now, v);
    } else {
      var m := writes[v.path];
      RecordRefines(series[i].samples, m, now, v.value);
      var updated := WithValue(series, now, v);
      var after := Written(writes, now, v);
      UniquePath(series, i);
      forall k | 0 <= k < |updated|
        ensures updated[k].path in after && SeriesRefines(updated[k].samples, after[updated[k].path], now)
      {
        assert updated[k].path == series[k].path;
      }
      forall p | p in after
        ensures exists k :: 0 <= k < |updated| && updated[k].path == p
      {
        var k :| 0 <= k < |series| && series[k].path == p;
        assert updated[k].path == p;
      }
    }
  }

  lemma LowerBoundInRange(series: seq<Series>, path: string)
    ensures LowerBound(series, path) <= |series|
  {
  }

  lemma UniquePath(series: seq<Series>, i: nat)
    requires Sorted(series) && i < |series|
    ensures forall k :: 0 <= k < |series| && k != i ==> series[k].path != series[i].path
  {
    LessIrreflexive(series[i].path);
  }

  lemma RecordRefines(c: seq<Sample>, m: map<real, real>, now: real, value: real)
    requires SeriesRefines(c, m, now)
    ensures SeriesRefines(Recorded(c, now, value), m[now := value], now)
  {
    hide Recorded, Bracketed;
    if c[|c| - 1].timeSec == now {
      OverwriteRefines(c, m, now, value);
    } else {
      AppendRefines(c, m, now, now, value);
    }
  }

  lemma InsertRefines(series: seq<Series>, writes: map<string, map<real, real>>, now: real, v: TelemetryValue)
    requires SeriesListRefines(series, writes, now)
    requires var i := LowerBound(series, v.path); i == |series| || series[i].path != v.path
    requires forall k :: 0 <= k < |series| ==> series[k].path != v.path
    requires forall k :: LowerBound(series, v.path) <= k < |series| ==> Less(v.path, series[k].path)
    ensures SeriesListRefines(WithValue(series, now, v), Written(writes, now, v), now)
  {
    hide SeriesRefines, Recorded, Less, LowerBound, Sorted;
    LowerBoundSplits(series, v.path);
    var i := LowerBound(series, v.path);
    var added := Series(v.path, Recorded([], now, v.value));
    var updated, after := WithValue(series, now, v), Written(writes, now, v);
    FirstRefines(now, v.value);
    assert v.path !in writes;
    assert map[][now := v.value] == map[now := v.value];
    InsertedAt(series, i, added, updated);
    InsertSorted(series, i, added, updated);
    forall k | 0 <= k < |updated|
      ensures updated[k].path in after && SeriesRefines(updated[k].samples, after[updated[k].path], now)
    {
      if k != i {
        assert updated[k] == series[if k < i then k else k - 1];
      }
    }
    forall p | p in after
      ensures exists k :: 0 <= k < |updated| && updated[k].path == p
    {
      InsertKeepsPath(series, i, added, updated, p);
    }
  }

  lemma InsertKeepsPath(series: seq<Series>, i: nat, s: Series, updated: seq<Series>, path: string)
    requires i <= |series| && updated == series[..i] + [s] + series[i..]
    requires path == s.path || exists k :: 0 <= k < |series| && series[k].path == path
    ensures exists k :: 0 <= k < |updated| && updated[k].path == path
  {
    if path == s.path {
      assert updated[i].path == path;
    } else {
      var k :| 0 <= k < |series| && series[k].path == path;
      assert updated[if k < i then k else k + 1].path == path;
    }
  }

  lemma InsertSorted(series: seq<Series>, i: nat, s: Series, updated: seq<Series>)
    requires i <= |series| && updated == series[..i] + [s] + series[i..]
    requires Sorted(series)
    requires forall k :: 0 <= k < i ==> Less(series[k].path, s.path)
    requires forall k :: i <= k < |series| ==> Less(s.path, series[k].path)
    ensures Sorted(updated)
  {
    hide Less;
  }

  lemma LowerBoundSplits(series: seq<Series>, path: string)
    ensures LowerBound(series, path) <= |series|
    ensures forall k :: 0 <= k < LowerBound(series, path) ==> Less(series[k].path, path)
  {
  }

  lemma InsertedAt(series: seq<Series>, i: nat, s: Series, updated: seq<Series>)
    requires i <= |series| && updated == series[..i] + [s] + series[i..]
    ensures |updated| == |series| + 1 && updated[i] == s
    ensures forall k :: 0 <= k < i ==> updated[k] == series[k]
    ensures forall k :: i <= k < |series| ==> updated[k + 1] == series[k]
    ensures forall k :: i < k < |updated| ==> updated[k] == series[k - 1]
  {
  }

  lemma {:induction false} ValuesRefine(series: seq<Series>, writes: map<string, map<real, real>>, now: real,
                                        values: seq<TelemetryValue>)
    requires SeriesListRefines(series, writes, now)
    ensures SeriesListRefines(WithValues(series, now, values), AllWritten(writes, now, values), now)
  {
    hide SeriesListRefines, WithValue, Written;
    if values != [] {
      var n := |values| - 1;
      ValuesRefine(series, writes, now, values[..n]);
      ValueRefines(WithValues(series, now, values[..n]), AllWritten(writes, now, values[..n]), now, values[n]);
    }
  }

  lemma FrameRefines(s: Snapshot, h: History, f: Frame)
    requires Refines(s, h)
    ensures Refines(Received(s, f), Observed(h, f))
  {
    hide SeriesRefines, WithValues, AllWritten;
    var now := f.timestamp;
    if h.span.None? || now < h.span.value.maxSec {
      ValuesRefine([], map[], now, f.values);
    } else {
      forall i | 0 <= i < |s.series|
        ensures SeriesRefines(s.series[i].samples, h.writes[s.series[i].path], now)
      {
        LaterStillRefines(s.series[i].samples, h.writes[s.series[i].path], h.span.value.maxSec, now);
      }
      ValuesRefine(s.series, h.writes, now, f.values);
    }
  }

  /** After any run of frames, in any time order, the cache refines the plain
      history since the last rewind. */
  lemma {:induction false} CacheRefinesHistory(frames: seq<Frame>)
    ensures Refines(CacheAfter(frames), HistoryAfter(frames))
  {
    hide Refines, Received, Observed;
    if frames == [] {
      EmptyRefines();
    } else {
      var n := |frames| - 1;
      CacheRefinesHistory(frames[..n]);
      FrameRefines(CacheAfter(frames[..n]), HistoryAfter(frames[..n]), frames[n]);
    }
  }

  lemma EmptyRefines()
    ensures Refines(EMPTY, NO_HISTORY)
  {
  }

  /** Consequences for a reader of the cache: a cached series has the same lower
      and the same upper bounds as the whole history of its path. */
  lemma SameExtremes(c: seq<Sample>, m: map<real, real>, now: real, bound: real)
    requires SeriesRefines(c, m, now)
    ensures (forall k :: 0 <= k < |c| ==> c[k].value >= bound) <==> (forall t :: t in m ==> m[t] >= bound)
    ensures (forall k :: 0 <= k < |c| ==> c[k].value <= bound) <==> (forall t :: t in m ==> m[t] <= bound)
  {
    hide SeriesRefines;
    forall k | 0 <= k < |c|
      ensures c[k].timeSec in m && c[k].value == m[c[k].timeSec]
    {
      SampleIsWrite(c, m, now, k);
    }
    if forall k :: 0 <= k < |c| ==> c[k].value >= bound {
      forall t | t in m
        ensures m[t] >= bound
      {
        var i, _ := WriteIsSurrounded(c, m, now, t);
      }
    }
    if forall k :: 0 <= k < |c| ==> c[k].value <= bound {
      forall t | t in m
        ensures m[t] <= bound
      {
        var _, j := WriteIsSurrounded(c, m, now, t);
      }
    }
  }

  lemma SampleIsWrite(c: seq<Sample>, m: map<real, real>, now: real, k: nat)
    requires SeriesRefines(c, m, now) && k < |c|
    ensures c[k].timeSec in m && c[k].value == m[c[k].timeSec]
  {
  }

  // Every write lies between two cached samples.
  lemma WriteIsSurrounded(c: seq<Sample>, m: map<real, real>, now: real, t: real) returns (i: nat, j: nat)
    requires SeriesRefines(c, m, now) && t in m
    ensures i < |c| && j < |c| && c[i].value <= m[t] <= c[j].value
  {
    hide Increasing, Bracketed;
    if t == c[|c| - 1].timeSec {
      i, j := |c| - 1, |c| - 1;
    } else {
      i, j := BracketingSamples(c, m[t]);
    }
  }

  lemma BracketingSamples(c: seq<Sample>, v: real) returns (i: nat, j: nat)
    requires |c| > 0 && Bracketed(c[..|c| - 1], v)
    ensures i < |c| && j < |c| && c[i].value <= v <= c[j].value
  {
    var a := c[..|c| - 1];
    var lo :| lo in a && lo.value <= v;
    var hi :| hi in a && hi.value >= v;
    i :| 0 <= i < |a| && a[i] == lo;
    j :| 0 <= j < |a| && a[j] == hi;
  }

  // Appending samples one after the other.
  function RecordedAll(c: seq<Sample>, added: seq<Sample>): seq<Sample> {
    if added == [] then c
    else
      var n := |added| - 1;
      Recorded(RecordedAll(c, added[..n]), added[n].timeSec, added[n].value)
  }

  // The same without any compaction, and how many of the writes add a sample.
  function Extended(c: seq<Sample>, w: Sample): seq<Sample> {
    if |c| > 0 && c[|c| - 1].timeSec == w.timeSec then c[|c| - 1 := w] else c + [w]
  }

  function Plain(c: seq<Sample>, writes: seq<Sample>): seq<Sample> {
    if writes == [] then c
    else
      var n := |writes| - 1;
      Extended(Plain(c, writes[..n]), writes[n])
  }

  function Appends(c: seq<Sample>, writes: seq<Sample>): nat {
    if writes == [] then 0
    else
      var n := |writes| - 1;
      Appends(c, writes[..n]) + |Extended(Plain(c, writes[..n]), writes[n])| - |Plain(c, writes[..n])|
  }

  /** A compacted series takes any writes that add up to 2048 samples, however many others
      overwrite the last sample, without being compacted: two compactions are at least
      2049 appended samples apart. */
  lemma {:induction false} CompactionsAreFarApart(c: seq<Sample>, writes: seq<Sample>)
    requires |c| <= COMPACTED && Appends(c, writes) <= COMPACTED
    ensures |Plain(c, writes)| == |c| + Appends(c, writes)
    ensures RecordedAll(c, writes) == Plain(c, writes)
  {
    if writes != [] {
      CompactionsAreFarApart(c, writes[..|writes| - 1]);
    }
  }

  /** The bound is reached: on a full compacted series the 2049th write that adds a sample
      compacts it again. */
  lemma NextCompaction(c: seq<Sample>, writes: seq<Sample>)
    requires |c| == COMPACTED && writes != []
    requires Appends(c, writes[..|writes| - 1]) == COMPACTED && Appends(c, writes) == COMPACTED + 1
    ensures Compactable(Plain(c, writes)) && RecordedAll(c, writes) == Compacted(Plain(c, writes))
  {
    CompactionsAreFarApart(c, writes[..|writes| - 1]);
  }

  // Later samples one after the other are all added.
  lemma {:induction false} LaterSamplesAppend(c: seq<Sample>, added: seq<Sample>)
    requires Increasing(c + added)
    ensures Plain(c, added) == c + added && Appends(c, added) == |added|
  {
    if added == [] {
      assert c + added == c;
    } else {
      var n := |added| - 1;
      assert (c + added)[..|c| + n] == c + added[..n];
      LaterSamplesAppend(c, added[..n]);
      var d := c + added[..n];
      assert d + [added[n]] == c + added;
      if |d| > 0 {
        assert (c + added)[|d| - 1] == d[|d| - 1] && (c + added)[|d|] == added[n];
      }
    }
  }
}
