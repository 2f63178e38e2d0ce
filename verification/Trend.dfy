/**
  The recorded samples and the trend series of src/observability/analytics-dashboard.service.ts.
  Timestamps are whole milliseconds.
*/
module Trend {
  datatype Sample = Sample(timestamp: int, allowed: bool, user: nat)

  datatype Metric = Hits | Exceeded | UniqueUsers

  datatype Granularity = Hour | Day | Week

  datatype Point = Point(timestamp: int, value: nat)

  const DayMs := 24 * 60 * 60 * 1000

  function BucketMs(g: Granularity): (ms: int)
    ensures ms > 0
  {
    match g
    case Hour => 60 * 60 * 1000
    case Day => DayMs
    case Week => 7 * DayMs
  }

  // ---------------------------------------------------------------- recording

  function Newest(samples: seq<Sample>, max: nat): seq<Sample> {
    if |samples| > max then samples[|samples| - max..] else samples
  }

  class SampleStore {
    var rateLimitSamples: seq<Sample>
    const maxSamples: nat

    constructor (maxSamples: nat)
      ensures this.maxSamples == maxSamples && rateLimitSamples == []
    {
      this.maxSamples, rateLimitSamples := maxSamples, [];
    }

    method RecordRateLimitDecision(item: Sample)
      modifies this
      ensures rateLimitSamples == Newest(old(rateLimitSamples) + [item], maxSamples)
    {
      rateLimitSamples := rateLimitSamples + [item];
      if |rateLimitSamples| > maxSamples {
        rateLimitSamples := rateLimitSamples[|rateLimitSamples| - maxSamples..];
      }
    }

    /** One sweep over the samples fills the buckets, a second one over the buckets reads them off. */
    method BuildTrend(metric: Metric, granularity: Granularity, days: int, now: int) returns (series: seq<Point>)
      ensures series == TrendOf(rateLimitSamples, metric, BucketMs(granularity), StartOf(days, now), now)
    {
      var start := StartOf(days, now);
      var bucketMs := BucketMs(granularity);
      var bucketMap := FillBuckets(start, bucketMs);
      hide InBucket, StartOf, BucketMs, Key, MetricValue;
      series := [];
      var cursor := Key(start / bucketMs, bucketMs);
      ghost var i := start / bucketMs;
      while cursor <= now
        invariant cursor == Key(i, bucketMs)
        invariant series + Series(rateLimitSamples, metric, bucketMs, start, now, i)
               == TrendOf(rateLimitSamples, metric, bucketMs, start, now)
        decreases now - cursor
      {
        KeyReached(i, now, bucketMs);
        KeyNext(i, bucketMs);
        series := series + [Point(cursor, MetricValue(metric, Bucket(bucketMap, cursor)))];
        i := i + 1;
        cursor := cursor + bucketMs;
      }
      KeyReached(i, now, bucketMs);
      assert series + [] == series;
    }

    method FillBuckets(start: int, bucketMs: int) returns (bucketMap: map<int, seq<Sample>>)
      requires bucketMs > 0
      ensures forall i: int :: Bucket(bucketMap, Key(i, bucketMs)) == InBucket(rateLimitSamples, start, i, bucketMs)
    {
      bucketMap := map[];
      hide Key;
      for k := 0 to |rateLimitSamples|
        invariant forall i: int :: Bucket(bucketMap, Key(i, bucketMs)) == InBucket(rateLimitSamples[..k], start, i, bucketMs)
      {
        var sample := rateLimitSamples[k];
        assert rateLimitSamples[..k + 1][..k] == rateLimitSamples[..k];
        if sample.timestamp >= start {
          var bucket := Key(sample.timestamp / bucketMs, bucketMs);
          KeyInjective(sample.timestamp / bucketMs, bucketMs);
          bucketMap := bucketMap[bucket := Bucket(bucketMap, bucket) + [sample]];
        }
      }
      assert rateLimitSamples[..|rateLimitSamples|] == rateLimitSamples;
    }
  }

  /** Recording a whole log keeps its newest samples. */
  function RecordAll(log: seq<Sample>, max: nat): seq<Sample> {
    if log == [] then [] else Newest(RecordAll(log[..|log| - 1], max) + [log[|log| - 1]], max)
  }

  lemma {:induction false} RecordAllKeepsNewest(log: seq<Sample>, max: nat)
    ensures RecordAll(log, max) == Newest(log, max)
  {
    if log != [] {
      RecordAllKeepsNewest(log[..|log| - 1], max);
      assert log == log[..|log| - 1] + [log[|log| - 1]];
    }
  }

  // ---------------------------------------------------------------- the series

  function StartOf(days: int, now: int): int { now - (if days < 1 then 1 else days) * DayMs }

  function Bucket(buckets: map<int, seq<Sample>>, b: int): seq<Sample> {
    if b in buckets then buckets[b] else []
  }

  /** Where bucket i starts. */
  function Key(i: int, bucketMs: int): int { i * bucketMs }

  /** The samples from start on whose timestamp falls into bucket i. */
  function InBucket(samples: seq<Sample>, start: int, i: int, bucketMs: int): seq<Sample>
    requires bucketMs > 0
  {
    if samples == [] then []
    else
      var s := samples[|samples| - 1];
      InBucket(samples[..|samples| - 1], start, i, bucketMs)
      + if s.timestamp >= start && s.timestamp / bucketMs == i then [s] else []
  }

  function Blocked(samples: seq<Sample>): nat {
    if samples == [] then 0
    else Blocked(samples[..|samples| - 1]) + if samples[|samples| - 1].allowed then 0 else 1
  }

  function MetricValue(metric: Metric, samples: seq<Sample>): nat {
    if samples == [] then 0
    else
      match metric
      case Hits => |samples|
      case Exceeded => Blocked(samples)
      case UniqueUsers => |set s | s in samples :: s.user|
  }

  /** The points of the buckets from i on, up to the one that holds now. */
  function Series(samples: seq<Sample>, metric: Metric, bucketMs: int, start: int, now: int, i: int): seq<Point>
    requires bucketMs > 0
    decreases now / bucketMs - i
  {
    if i > now / bucketMs then []
    else
      [Point(Key(i, bucketMs), MetricValue(metric, InBucket(samples, start, i, bucketMs)))]
      + Series(samples, metric, bucketMs, start, now, i + 1)
  }

  function TrendOf(samples: seq<Sample>, metric: Metric, bucketMs: int, start: int, now: int): seq<Point>
    requires bucketMs > 0
  {
    Series(samples, metric, bucketMs, start, now, start / bucketMs)
  }

  lemma KeyInjective(i: int, bucketMs: int)
    requires bucketMs > 0
    ensures forall j: int :: Key(j, bucketMs) == Key(i, bucketMs) ==> j == i
  {
    forall j: int | Key(j, bucketMs) == Key(i, bucketMs) ensures j == i {
      assert (j - i) * bucketMs == 0;
    }
  }

  lemma KeyNext(i: int, bucketMs: int)
    ensures Key(i + 1, bucketMs) == Key(i, bucketMs) + bucketMs
  {
  }

  lemma KeyMonotone(i: int, j: int, bucketMs: int)
    requires bucketMs > 0 && i <= j
    ensures Key(i, bucketMs) <= Key(j, bucketMs)
  {
  }

  lemma KeyReached(i: int, now: int, bucketMs: int)
    requires bucketMs > 0
    ensures Key(i, bucketMs) <= now <==> i <= now / bucketMs
  {
    var q := now / bucketMs;
    assert Key(q, bucketMs) <= now < Key(q, bucketMs) + bucketMs;
    KeyNext(q, bucketMs);
    hide Key;
    if i <= q {
      KeyMonotone(i, q, bucketMs);
    } else {
      KeyMonotone(q + 1, i, bucketMs);
    }
  }

  // ---------------------------------------------------------------- nothing lost, nothing counted twice

  function Total(series: seq<Point>): nat {
    if series == [] then 0 else series[0].value + Total(series[1..])
  }

  /** The samples from start on whose bucket lies between two others. */
  function Between(samples: seq<Sample>, start: int, lo: int, hi: int, bucketMs: int): seq<Sample>
    requires bucketMs > 0
  {
    if samples == [] then []
    else
      var s := samples[|samples| - 1];
      Between(samples[..|samples| - 1], start, lo, hi, bucketMs)
      + if s.timestamp >= start && lo <= s.timestamp / bucketMs <= hi then [s] else []
  }

  /** Of the two metrics that count samples. */
  function Counted(metric: Metric, samples: seq<Sample>): nat {
    if metric == Exceeded then Blocked(samples) else |samples|
  }

  lemma CountedOne(metric: Metric, samples: seq<Sample>, more: seq<Sample>)
    requires |more| <= 1
    ensures Counted(metric, samples + more) == Counted(metric, samples) + Counted(metric, more)
  {
    if more == [] {
      assert samples + more == samples;
    } else {
      var all := samples + more;
      assert all[..|all| - 1] == samples && all[|all| - 1] == more[0];
      assert more[..|more| - 1] == [];
      assert Blocked(more[..|more| - 1]) == 0;
      assert Blocked(all) == Blocked(samples) + Blocked(more);
    }
  }

  /** One bucket and the buckets above it count what the range counts. */
  lemma {:induction false} BetweenSplits(samples: seq<Sample>, metric: Metric, start: int, i: int, hi: int, bucketMs: int)
    requires bucketMs > 0 && i <= hi
    ensures Counted(metric, Between(samples, start, i, hi, bucketMs))
         == Counted(metric, InBucket(samples, start, i, bucketMs))
            + Counted(metric, Between(samples, start, i + 1, hi, bucketMs))
  {
    if samples != [] {
      var front, s := samples[..|samples| - 1], samples[|samples| - 1];
      BetweenSplits(front, metric, start, i, hi, bucketMs);
      var b := s.timestamp / bucketMs;
      var here := if s.timestamp >= start && b == i then [s] else [];
      var above := if s.timestamp >= start && i + 1 <= b <= hi then [s] else [];
      var range := if s.timestamp >= start && i <= b <= hi then [s] else [];
      CountedOne(metric, InBucket(front, start, i, bucketMs), here);
      CountedOne(metric, Between(front, start, i + 1, hi, bucketMs), above);
      CountedOne(metric, Between(front, start, i, hi, bucketMs), range);
    }
  }

  lemma {:induction false} NoneBetween(samples: seq<Sample>, start: int, lo: int, hi: int, bucketMs: int)
    requires bucketMs > 0 && hi < lo
    ensures Between(samples, start, lo, hi, bucketMs) == []
  {
    if samples != [] {
      NoneBetween(samples[..|samples| - 1], start, lo, hi, bucketMs);
    }
  }

  lemma {:induction false} SeriesTotal(samples: seq<Sample>, metric: Metric, bucketMs: int, start: int, now: int, i: int)
    requires bucketMs > 0 && metric != UniqueUsers
    ensures Total(Series(samples, metric, bucketMs, start, now, i))
         == Counted(metric, Between(samples, start, i, now / bucketMs, bucketMs))
    decreases now / bucketMs - i
  {
    var hi := now / bucketMs;
    if i > hi {
      NoneBetween(samples, start, i, hi, bucketMs);
    } else {
      SeriesTotal(samples, metric, bucketMs, start, now, i + 1);
      BetweenSplits(samples, metric, start, i, hi, bucketMs);
      var rest := Series(samples, metric, bucketMs, start, now, i + 1);
      var p := Point(Key(i, bucketMs), MetricValue(metric, InBucket(samples, start, i, bucketMs)));
      assert ([p] + rest)[1..] == rest;
    }
  }

  /** The samples with start <= timestamp <= now. */
  function Window(samples: seq<Sample>, start: int, now: int): seq<Sample> {
    if samples == [] then []
    else
      var s := samples[|samples| - 1];
      Window(samples[..|samples| - 1], start, now) + if start <= s.timestamp <= now then [s] else []
  }

  lemma {:induction false} BetweenIsWindow(samples: seq<Sample>, start: int, now: int, bucketMs: int)
    requires bucketMs > 0
    requires forall k :: 0 <= k < |samples| ==> samples[k].timestamp <= now
    ensures Between(samples, start, start / bucketMs, now / bucketMs, bucketMs) == Window(samples, start, now)
  {
    if samples != [] {
      BetweenIsWindow(samples[..|samples| - 1], start, now, bucketMs);
      var t := samples[|samples| - 1].timestamp;
      BucketMonotone(t, now, bucketMs);
      if start <= t {
        BucketMonotone(start, t, bucketMs);
      }
    }
  }

  lemma BucketMonotone(s: int, t: int, bucketMs: int)
    requires bucketMs > 0 && s <= t
    ensures s / bucketMs <= t / bucketMs
  {
    assert Key(s / bucketMs, bucketMs) <= s;
    KeyReached(s / bucketMs, t, bucketMs);
  }

  /**
    When no sample is newer than now, the hits of the series are the samples in [start, now] and
    the exceeded ones are the blocked among them, whatever the granularity.
  */
  lemma TrendCounts(samples: seq<Sample>, g: Granularity, start: int, now: int)
    requires forall k :: 0 <= k < |samples| ==> samples[k].timestamp <= now
    ensures Total(TrendOf(samples, Hits, BucketMs(g), start, now)) == |Window(samples, start, now)|
    ensures Total(TrendOf(samples, Exceeded, BucketMs(g), start, now)) == Blocked(Window(samples, start, now))
  {
    SeriesTotal(samples, Hits, BucketMs(g), start, now, start / BucketMs(g));
    SeriesTotal(samples, Exceeded, BucketMs(g), start, now, start / BucketMs(g));
    BetweenIsWindow(samples, start, now, BucketMs(g));
  }

  /** The samples past now that share its bucket, and so are counted all the same. */
  function Early(samples: seq<Sample>, now: int, bucketMs: int): seq<Sample>
    requires bucketMs > 0
  {
    if samples == [] then []
    else
      var s := samples[|samples| - 1];
      Early(samples[..|samples| - 1], now, bucketMs)
      + if s.timestamp > now && s.timestamp / bucketMs == now / bucketMs then [s] else []
  }

  lemma {:induction false} BetweenCounts(samples: seq<Sample>, metric: Metric, start: int, now: int, bucketMs: int)
    requires bucketMs > 0 && start <= now
    ensures Counted(metric, Between(samples, start, start / bucketMs, now / bucketMs, bucketMs))
         == Counted(metric, Window(samples, start, now)) + Counted(metric, Early(samples, now, bucketMs))
  {
    hide Counted;
    if samples == [] {
      CountedNone(metric);
    } else {
      var front, s := samples[..|samples| - 1], samples[|samples| - 1];
      BetweenCounts(front, metric, start, now, bucketMs);
      CountedNone(metric);
      CountedOne(metric, Between(front, start, start / bucketMs, now / bucketMs, bucketMs), [s]);
      CountedOne(metric, Window(front, start, now), [s]);
      CountedOne(metric, Early(front, now, bucketMs), [s]);
      InRange(s.timestamp, start, now, bucketMs);
    }
  }

  lemma CountedNone(metric: Metric)
    ensures Counted(metric, []) == 0
    ensures forall samples: seq<Sample> :: samples + [] == samples
  {
  }

  /** A sample from start on lies up to the last bucket exactly when it is in the window or early. */
  lemma InRange(t: int, start: int, now: int, bucketMs: int)
    requires bucketMs > 0 && start <= now
    ensures t >= start && start / bucketMs <= t / bucketMs <= now / bucketMs <==>
      start <= t <= now || (t > now && t / bucketMs == now / bucketMs)
  {
    if t <= now {
      BucketMonotone(t, now, bucketMs);
    } else {
      BucketMonotone(now, t, bucketMs);
    }
    if start <= t {
      BucketMonotone(start, t, bucketMs);
    }
  }

  /**
    With samples from the future, hits are exact if and only if none of them shares the last bucket, and
    exceeded if and only if none of those that do was blocked.
  */
  lemma TrendExactIff(samples: seq<Sample>, g: Granularity, start: int, now: int)
    requires start <= now
    ensures Total(TrendOf(samples, Hits, BucketMs(g), start, now)) == |Window(samples, start, now)|
       <==> Early(samples, now, BucketMs(g)) == []
    ensures Total(TrendOf(samples, Exceeded, BucketMs(g), start, now)) == Blocked(Window(samples, start, now))
       <==> forall k :: 0 <= k < |Early(samples, now, BucketMs(g))| ==> Early(samples, now, BucketMs(g))[k].allowed
  {
    SeriesTotal(samples, Hits, BucketMs(g), start, now, start / BucketMs(g));
    SeriesTotal(samples, Exceeded, BucketMs(g), start, now, start / BucketMs(g));
    BetweenCounts(samples, Hits, start, now, BucketMs(g));
    BetweenCounts(samples, Exceeded, start, now, BucketMs(g));
    NoneBlocked(Early(samples, now, BucketMs(g)));
  }

  lemma {:induction false} NoneBlocked(samples: seq<Sample>)
    ensures Blocked(samples) == 0 <==> forall k :: 0 <= k < |samples| ==> samples[k].allowed
  {
    if samples != [] {
      NoneBlocked(samples[..|samples| - 1]);
    }
  }
}
