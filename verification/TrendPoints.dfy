/**
  The points of a trend series of src/observability/analytics-dashboard.service.ts, one by one: where each stands
  and what it counts.
*/
module TrendPoints {
  import opened Wrappers
  import opened Trend

  /** The length of a bucket in milliseconds. */
  lemma LengthIs(g: Granularity)
    ensures BucketMs(g) ==
      match g
      case Hour => 3_600_000
      case Day => 86_400_000
      case Week => 604_800_000
  {
  }

  /** A series goes back a number of days, one at least. */
  lemma StartIs(days: int, now: int)
    ensures StartOf(days, now) == now - Max(days, 1) * 86_400_000
  {
  }

  /** The samples with lo <= timestamp < hi. */
  function Within(samples: seq<Sample>, lo: int, hi: int): seq<Sample> {
    if samples == [] then []
    else (if lo <= samples[0].timestamp < hi then [samples[0]] else []) + Within(samples[1..], lo, hi)
  }

  /** How many of the samples were refused. */
  function Refused(samples: seq<Sample>): nat {
    if samples == [] then 0 else (if samples[0].allowed then 0 else 1) + Refused(samples[1..])
  }

  /** The users of the samples. */
  function UsersOf(samples: seq<Sample>): set<nat> {
    if samples == [] then {} else {samples[0].user} + UsersOf(samples[1..])
  }

  /** What a metric counts of samples: all of them, the refused ones, or their distinct users. */
  function Counts(metric: Metric, samples: seq<Sample>): nat {
    match metric
    case Hits => |samples|
    case Exceeded => Refused(samples)
    case UniqueUsers => |UsersOf(samples)|
  }

  lemma {:induction false} WithinMore(samples: seq<Sample>, s: Sample, lo: int, hi: int)
    ensures Within(samples + [s], lo, hi) == Within(samples, lo, hi) + if lo <= s.timestamp < hi then [s] else []
  {
    if samples == [] {
      assert [] + [s] == [s] && [s][1..] == [];
    } else {
      assert (samples + [s])[1..] == samples[1..] + [s];
      WithinMore(samples[1..], s, lo, hi);
    }
  }

  lemma {:induction false} RefusedMore(samples: seq<Sample>, s: Sample)
    ensures Refused(samples + [s]) == Refused(samples) + if s.allowed then 0 else 1
  {
    if samples == [] {
      assert [] + [s] == [s] && [s][1..] == [];
    } else {
      assert (samples + [s])[1..] == samples[1..] + [s];
      RefusedMore(samples[1..], s);
    }
  }

  lemma {:induction false} BlockedIs(samples: seq<Sample>)
    ensures Blocked(samples) == Refused(samples)
  {
    if samples != [] {
      var front, last := samples[..|samples| - 1], samples[|samples| - 1];
      assert samples == front + [last];
      BlockedIs(front);
      RefusedMore(front, last);
    }
  }

  lemma {:induction false} UsersAre(samples: seq<Sample>)
    ensures UsersOf(samples) == set s | s in samples :: s.user
  {
    if samples != [] {
      UsersAre(samples[1..]);
      assert samples == [samples[0]] + samples[1..];
    }
  }

  lemma MetricIs(metric: Metric, samples: seq<Sample>)
    ensures MetricValue(metric, samples) == Counts(metric, samples)
  {
    BlockedIs(samples);
    UsersAre(samples);
  }

  lemma InBucketTime(t: int, i: int, bucketMs: int)
    requires bucketMs > 0
    ensures t / bucketMs == i <==> Key(i, bucketMs) <= t < Key(i + 1, bucketMs)
  {
    KeyReached(i, t, bucketMs);
    KeyReached(i + 1, t, bucketMs);
  }

  /** The samples of a bucket are those from start on that lie in it. */
  lemma {:induction false} BucketHolds(samples: seq<Sample>, start: int, i: int, bucketMs: int)
    requires bucketMs > 0
    ensures InBucket(samples, start, i, bucketMs) == Within(samples, Max(start, Key(i, bucketMs)), Key(i + 1, bucketMs))
  {
    hide Key;
    if samples != [] {
      var front, last := samples[..|samples| - 1], samples[|samples| - 1];
      assert samples == front + [last];
      BucketHolds(front, start, i, bucketMs);
      WithinMore(front, last, Max(start, Key(i, bucketMs)), Key(i + 1, bucketMs));
      InBucketTime(last.timestamp, i, bucketMs);
    }
  }

  lemma {:induction false} SeriesAt(samples: seq<Sample>, metric: Metric, bucketMs: int, start: int, now: int, i: int, k: nat)
    requires bucketMs > 0
    ensures var series := Series(samples, metric, bucketMs, start, now, i);
      && |series| == (if i > now / bucketMs then 0 else now / bucketMs - i + 1)
      && (k < |series| ==>
            series[k] == Point(Key(i + k, bucketMs), MetricValue(metric, InBucket(samples, start, i + k, bucketMs))))
    decreases now / bucketMs - i
  {
    hide Key, MetricValue, InBucket;
    if i <= now / bucketMs {
      SeriesAt(samples, metric, bucketMs, start, now, i + 1, if k == 0 then 0 else k - 1);
    }
  }

  lemma PointAt(samples: seq<Sample>, metric: Metric, ms: int, start: int, now: int, k: nat)
    requires ms > 0 && start <= now
    ensures var series := TrendOf(samples, metric, ms, start, now);
      && |series| == now / ms - start / ms + 1 > 0
      && (k < |series| ==>
            series[k] == Point(Key(start / ms + k, ms), Counts(metric, Within(samples, Max(start, Key(start / ms + k, ms)), Key(start / ms + k + 1, ms)))))
  {
    hide MetricValue, InBucket, Key, Counts, Within;
    BucketMonotone(start, now, ms);
    SeriesAt(samples, metric, ms, start, now, start / ms, k);
    BucketHolds(samples, start, start / ms + k, ms);
    MetricIs(metric, InBucket(samples, start, start / ms + k, ms));
  }

  /**
    The points of a series: bucket after bucket, from the one that start lies in to the one that now lies in, each
    at a multiple of the bucket's length; and each counts the samples in its bucket that are not before start.
  */
  lemma PointIs(samples: seq<Sample>, metric: Metric, g: Granularity, days: int, now: int, k: nat)
    ensures var series, start, ms := TrendOf(samples, metric, BucketMs(g), StartOf(days, now), now), StartOf(days, now), BucketMs(g);
      && series != []
      && series[0].timestamp == ms * (start / ms) <= start < series[0].timestamp + ms
      && series[|series| - 1].timestamp <= now < series[|series| - 1].timestamp + ms
      && (k < |series| ==>
            var at := series[k].timestamp;
            && (k + 1 < |series| ==> series[k + 1].timestamp == at + ms)
            && series[k].value == Counts(metric, Within(samples, Max(start, at), at + ms)))
  {
    hide TrendOf, Key, Counts, Within, BucketMs, StartOf;
    var ms, start := BucketMs(g), StartOf(days, now);
    var first, last := start / ms, now / ms;
    StartBefore(days, now);
    BucketMonotone(start, now, ms);
    PointAt(samples, metric, ms, start, now, 0);
    PointAt(samples, metric, ms, start, now, last - first);
    PointAt(samples, metric, ms, start, now, k);
    PointAt(samples, metric, ms, start, now, k + 1);
    InBucketTime(start, first, ms);
    InBucketTime(now, last, ms);
    KeyNext(first, ms);
    KeyNext(last, ms);
    KeyNext(first + k, ms);
    KeyIs(first, ms);
  }

  lemma StartBefore(days: int, now: int)
    ensures StartOf(days, now) < now
  {
  }

  lemma KeyIs(i: int, ms: int)
    ensures Key(i, ms) == ms * i
  {
  }

  /** A store keeps the newest samples, as many as its limit allows. */
  lemma NewestIs(log: seq<Sample>, max: nat)
    ensures var kept := RecordAll(log, max);
      |kept| == Min(|log|, max) && kept == log[|log| - |kept|..]
  {
    RecordAllKeepsNewest(log, max);
  }
}
