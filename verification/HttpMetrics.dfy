/** The request counters and latency histograms of `backend/server/api/http_metrics.py`. */
module HttpMetrics {
  import opened Wrappers

  // ------------------------------------------------------------ routes and buckets

  const FILTERED_ROUTES: seq<string> := ["/ok", "/info", "/metrics", "/docs", "/openapi.json"]
  const MAX_REQUEST_COUNT_ENTRIES: nat := 5000
  const MAX_HISTOGRAM_ENTRIES: nat := 1000

  datatype Bound = Finite(seconds: real) | Infinite

  const HTTP_LATENCY_BUCKETS: seq<Bound> :=
    [Finite(0.01), Finite(0.1), Finite(0.5), Finite(1.0), Finite(5.0), Finite(15.0), Finite(30.0), Finite(60.0),
     Finite(120.0), Finite(300.0), Finite(600.0), Finite(1800.0), Finite(3600.0), Infinite]

  const BUCKETS: nat := 14

  predicate EndsWith(s: string, suffix: string) { |suffix| <= |s| && s[|s| - |suffix|..] == suffix }

  predicate ShouldFilterRoute(path: string) {
    exists suffix <- FILTERED_ROUTES :: EndsWith(path, suffix)
  }

  predicate Within(x: real, i: nat)
    requires i < BUCKETS
  {
    match HTTP_LATENCY_BUCKETS[i]
    case Finite(seconds) => x <= seconds
    case Infinite => true
  }

  /** The bounds ascend. */
  lemma WithinNext(x: real, i: nat)
    requires i + 1 < BUCKETS && Within(x, i)
    ensures Within(x, i + 1)
  {
  }

  /** The first bound, from the `i`th on, that the latency is within. */
  function FirstBucketFrom(x: real, i: nat): (k: nat)
    requires i < BUCKETS
    ensures i <= k < BUCKETS && Within(x, k) && forall j | i <= j < k :: !Within(x, j)
    decreases BUCKETS - i
  {
    if Within(x, i) || i + 1 == BUCKETS then i else FirstBucketFrom(x, i + 1)
  }

  function FirstBucket(x: real): (k: nat)
    ensures k < BUCKETS
  {
    FirstBucketFrom(x, 0)
  }

  // ------------------------------------------------------------ the tables

  /** A Python dict, which keeps the order its keys were first inserted in. */
  datatype Dict<K(==), V> = Dict(order: seq<K>, at: map<K, V>)

  function Get<K, V>(d: Dict<K, V>, k: K, default: V): V {
    if k in d.at then d.at[k] else default
  }

  function Put<K, V>(d: Dict<K, V>, k: K, v: V): Dict<K, V> {
    Dict(if k in d.at then d.order else d.order + [k], d.at[k := v])
  }

  ghost predicate DictOk<K(!new), V>(d: Dict<K, V>) {
    && (forall i, j | 0 <= i < j < |d.order| :: d.order[i] != d.order[j])
    && (forall k :: k in d.at <==> k in d.order)
  }

  lemma PutOk<K(!new), V>(d: Dict<K, V>, k: K, v: V)
    requires DictOk(d)
    ensures DictOk(Put(d, k, v))
  {
  }

  type Buckets = s: seq<nat> | |s| == BUCKETS witness [0, 0, 0, 0, 0, 0, 0, 0, 0, 0, 0, 0, 0, 0]

  datatype Series = Series(verb: string, path: string)
  datatype CounterKey = CounterKey(series: Series, status: int)
  datatype Histogram = Histogram(bucketCounts: Buckets, sum: real, count: nat)

  const NO_HISTOGRAM := Histogram([0, 0, 0, 0, 0, 0, 0, 0, 0, 0, 0, 0, 0, 0], 0.0, 0)

  datatype Metrics = Metrics(counts: Dict<CounterKey, nat>, histograms: Dict<Series, Histogram>)

  const NO_METRICS := Metrics(Dict([], map[]), Dict([], map[]))

  /** A finished request; its route may have no path. */
  datatype Request = Request(verb: string, path: Option<string>, status: int, latencyMs: real)

  /** What a request counts as when it is accepted. */
  datatype Hit = Hit(key: CounterKey, seconds: real)

  predicate Relevant(r: Request) { r.path.Some? && !ShouldFilterRoute(r.path.value) }

  function HitOf(r: Request): Hit
    requires r.path.Some?
  {
    Hit(CounterKey(Series(r.verb, r.path.value), r.status), r.latencyMs / 1000.0)
  }

  /** Both tables know the request, or have room for it. */
  predicate HasRoom(m: Metrics, key: CounterKey) {
    && (key in m.counts.at || |m.counts.order| < MAX_REQUEST_COUNT_ENTRIES)
    && (key.series in m.histograms.at || |m.histograms.order| < MAX_HISTOGRAM_ENTRIES)
  }

  predicate Accepts(m: Metrics, r: Request) { Relevant(r) && HasRoom(m, HitOf(r).key) }

  function Observe(h: Histogram, x: real): Histogram {
    var i := FirstBucket(x);
    Histogram(h.bucketCounts[i := h.bucketCounts[i] + 1], h.sum + x, h.count + 1)
  }

  function AddHit(m: Metrics, hit: Hit): Metrics {
    var series := hit.key.series;
    Metrics(Put(m.counts, hit.key, Get(m.counts, hit.key, 0) + 1),
            Put(m.histograms, series, Observe(Get(m.histograms, series, NO_HISTOGRAM), hit.seconds)))
  }

  function Record(m: Metrics, r: Request): Metrics {
    if Accepts(m, r) then AddHit(m, HitOf(r)) else m
  }

  /** The tables after a history of requests, and the requests that were accepted. */
  function After(history: seq<Request>): Metrics {
    if history == [] then NO_METRICS else Record(After(history[..|history| - 1]), history[|history| - 1])
  }

  function Accepted(history: seq<Request>): seq<Hit> {
    if history == [] then []
    else
      var front, r := history[..|history| - 1], history[|history| - 1];
      if Accepts(After(front), r) then Accepted(front) + [HitOf(r)] else Accepted(front)
  }

  lemma AfterOneMore(history: seq<Request>, r: Request)
    ensures After(history + [r]) == Record(After(history), r)
  {
    assert (history + [r])[..|history|] == history;
  }

  // ------------------------------------------------------------ counting requests

  datatype Which =
    | InSeries(series: Series)
    | InBucket(series: Series, i: nat)
    | UpTo(series: Series, i: nat)
    | InCounter(key: CounterKey)
    | AmongCounters(series: Series, keys: seq<CounterKey>)

  predicate Matches(w: Which, hit: Hit) {
    match w
    case InSeries(s) => hit.key.series == s
    case InBucket(s, i) => hit.key.series == s && FirstBucket(hit.seconds) == i
    case UpTo(s, i) => hit.key.series == s && i < BUCKETS && Within(hit.seconds, i)
    case InCounter(k) => hit.key == k
    case AmongCounters(s, keys) => hit.key.series == s && hit.key in keys
  }

  function Number(hits: seq<Hit>, w: Which): nat {
    if hits == [] then 0
    else Number(hits[..|hits| - 1], w) + if Matches(w, hits[|hits| - 1]) then 1 else 0
  }

  function Total(hits: seq<Hit>, s: Series): real {
    if hits == [] then 0.0
    else Total(hits[..|hits| - 1], s) + if hits[|hits| - 1].key.series == s then hits[|hits| - 1].seconds else 0.0
  }

  lemma NumberAppend(hits: seq<Hit>, hit: Hit, w: Which)
    ensures Number(hits + [hit], w) == Number(hits, w) + if Matches(w, hit) then 1 else 0
  {
    assert (hits + [hit])[..|hits|] == hits;
  }

  lemma {:induction false} NumberPositive(hits: seq<Hit>, w: Which, i: nat)
    requires i < |hits| && Matches(w, hits[i])
    ensures Number(hits, w) > 0
  {
    if i < |hits| - 1 { NumberPositive(hits[..|hits| - 1], w, i); }
  }

  lemma {:induction false} SameNumber(hits: seq<Hit>, v: Which, w: Which)
    requires forall hit :: Matches(v, hit) <==> Matches(w, hit)
    ensures Number(hits, v) == Number(hits, w)
  {
    if hits != [] { SameNumber(hits[..|hits| - 1], v, w); }
  }

  /** Kinds that share no request add up. */
  lemma {:induction false} NumberSplits(hits: seq<Hit>, u: Which, v: Which, w: Which)
    requires forall hit :: Matches(w, hit) <==> Matches(u, hit) || Matches(v, hit)
    requires forall hit :: !(Matches(u, hit) && Matches(v, hit))
    ensures Number(hits, w) == Number(hits, u) + Number(hits, v)
  {
    if hits != [] {
      NumberSplits(hits[..|hits| - 1], u, v, w);
      var hit := hits[|hits| - 1];
      assert Matches(w, hit) <==> Matches(u, hit) || Matches(v, hit);
    }
  }

  // ------------------------------------------------------------ what the tables hold

  ghost predicate HistogramOk(h: Histogram, hits: seq<Hit>, s: Series) {
    && h.count == Number(hits, InSeries(s))
    && h.sum == Total(hits, s)
    && forall i | 0 <= i < BUCKETS :: h.bucketCounts[i] == Number(hits, InBucket(s, i))
  }

  ghost predicate SeriesOk(m: Metrics, hits: seq<Hit>, s: Series) {
    && HistogramOk(Get(m.histograms, s, NO_HISTOGRAM), hits, s)
    && (s in m.histograms.at <==> Number(hits, InSeries(s)) > 0)
  }

  ghost predicate CounterOk(m: Metrics, hits: seq<Hit>, k: CounterKey) {
    && Get(m.counts, k, 0) == Number(hits, InCounter(k))
    && (k in m.counts.at <==> Number(hits, InCounter(k)) > 0)
  }

  ghost predicate Inv(m: Metrics, hits: seq<Hit>) {
    && DictOk(m.counts) && DictOk(m.histograms)
    && |m.counts.order| <= MAX_REQUEST_COUNT_ENTRIES
    && |m.histograms.order| <= MAX_HISTOGRAM_ENTRIES
    && (forall s :: SeriesOk(m, hits, s))
    && (forall k :: CounterOk(m, hits, k))
  }

  lemma ObserveKeeps(h: Histogram, hits: seq<Hit>, hit: Hit)
    requires HistogramOk(h, hits, hit.key.series)
    ensures HistogramOk(Observe(h, hit.seconds), hits + [hit], hit.key.series)
  {
    var s := hit.key.series;
    NumberAppend(hits, hit, InSeries(s));
    assert (hits + [hit])[..|hits|] == hits;
    forall i | 0 <= i < BUCKETS
      ensures Observe(h, hit.seconds).bucketCounts[i] == Number(hits + [hit], InBucket(s, i))
    {
      NumberAppend(hits, hit, InBucket(s, i));
    }
  }

  lemma OtherSeriesKeeps(h: Histogram, hits: seq<Hit>, hit: Hit, s: Series)
    requires HistogramOk(h, hits, s) && s != hit.key.series
    ensures HistogramOk(h, hits + [hit], s)
  {
    NumberAppend(hits, hit, InSeries(s));
    assert (hits + [hit])[..|hits|] == hits;
    forall i | 0 <= i < BUCKETS
      ensures h.bucketCounts[i] == Number(hits + [hit], InBucket(s, i))
    {
      NumberAppend(hits, hit, InBucket(s, i));
    }
  }

  lemma AddHitSeries(m: Metrics, hits: seq<Hit>, hit: Hit, s: Series)
    requires SeriesOk(m, hits, s)
    ensures SeriesOk(AddHit(m, hit), hits + [hit], s)
  {
    NumberAppend(hits, hit, InSeries(s));
    var h := Get(m.histograms, s, NO_HISTOGRAM);
    if s == hit.key.series { ObserveKeeps(h, hits, hit); } else { OtherSeriesKeeps(h, hits, hit, s); }
  }

  /** Accepting a request keeps every table entry exact. */
  lemma AddHitKeepsInv(m: Metrics, hits: seq<Hit>, hit: Hit)
    requires Inv(m, hits) && HasRoom(m, hit.key)
    ensures Inv(AddHit(m, hit), hits + [hit])
  {
    PutOk(m.counts, hit.key, Get(m.counts, hit.key, 0) + 1);
    PutOk(m.histograms, hit.key.series, Observe(Get(m.histograms, hit.key.series, NO_HISTOGRAM), hit.seconds));
    forall s
      ensures SeriesOk(AddHit(m, hit), hits + [hit], s)
    {
      AddHitSeries(m, hits, hit, s);
    }
    forall k
      ensures CounterOk(AddHit(m, hit), hits + [hit], k)
    {
      assert CounterOk(m, hits, k);
      NumberAppend(hits, hit, InCounter(k));
    }
  }

  /** After any history the tables hold exactly the accepted requests, within their caps. */
  lemma {:induction false} HistoryKeepsInv(history: seq<Request>)
    ensures Inv(After(history), Accepted(history))
  {
    if history != [] {
      var front, r := history[..|history| - 1], history[|history| - 1];
      HistoryKeepsInv(front);
      if Accepts(After(front), r) { AddHitKeepsInv(After(front), Accepted(front), HitOf(r)); }
    }
  }

  /** A series and status counted once is never dropped again. */
  lemma KnownIsAccepted(history: seq<Request>, r: Request, i: nat)
    requires Relevant(r) && i < |Accepted(history)| && Accepted(history)[i].key == HitOf(r).key
    ensures Accepts(After(history), r)
  {
    var hits, key := Accepted(history), HitOf(r).key;
    HistoryKeepsInv(history);
    NumberPositive(hits, InCounter(key), i);
    NumberPositive(hits, InSeries(key.series), i);
    assert CounterOk(After(history), hits, key) && SeriesOk(After(history), hits, key.series);
  }

  // ------------------------------------------------------------ the exported lines

  datatype Line =
    | CounterLine(key: CounterKey, count: nat)
    | BucketLine(series: Series, le: nat, count: nat)
    | SumLine(series: Series, sum: real)
    | CountLine(series: Series, count: nat)

  function CounterLines(counts: Dict<CounterKey, nat>, n: nat): seq<Line>
    requires n <= |counts.order|
  {
    if n == 0 then []
    else CounterLines(counts, n - 1) + [CounterLine(counts.order[n - 1], Get(counts, counts.order[n - 1], 0))]
  }

  /** The running total of the first `n` buckets. */
  function Cumulative(counts: Buckets, n: nat): nat
    requires n <= BUCKETS
  {
    if n == 0 then 0 else Cumulative(counts, n - 1) + counts[n - 1]
  }

  function BucketLines(s: Series, h: Histogram, n: nat): seq<Line>
    requires n <= BUCKETS
  {
    if n == 0 then [] else BucketLines(s, h, n - 1) + [BucketLine(s, n - 1, Cumulative(h.bucketCounts, n))]
  }

  function SeriesLines(s: Series, h: Histogram): seq<Line> {
    BucketLines(s, h, BUCKETS) + [SumLine(s, h.sum), CountLine(s, h.count)]
  }

  function HistogramLines(hs: Dict<Series, Histogram>, n: nat): seq<Line>
    requires n <= |hs.order|
  {
    if n == 0 then []
    else HistogramLines(hs, n - 1) + SeriesLines(hs.order[n - 1], Get(hs, hs.order[n - 1], NO_HISTOGRAM))
  }

  /** `get_metrics` in the Prometheus format, without the comment lines. */
  function Exported(m: Metrics): seq<Line> {
    CounterLines(m.counts, |m.counts.order|) + HistogramLines(m.histograms, |m.histograms.order|)
  }

  /** What a line says of the accepted requests. */
  ghost predicate TrueLine(hits: seq<Hit>, line: Line) {
    match line
    case CounterLine(k, n) => n == Number(hits, InCounter(k))
    case BucketLine(s, le, n) => le < BUCKETS && n == Number(hits, UpTo(s, le))
    case SumLine(s, x) => x == Total(hits, s)
    case CountLine(s, n) => n == Number(hits, InSeries(s))
  }

  lemma UpToSplits(hits: seq<Hit>, s: Series, i: nat)
    requires 0 < i < BUCKETS
    ensures Number(hits, UpTo(s, i)) == Number(hits, UpTo(s, i - 1)) + Number(hits, InBucket(s, i))
  {
    forall hit: Hit
      ensures Matches(UpTo(s, i), hit) <==> Matches(UpTo(s, i - 1), hit) || Matches(InBucket(s, i), hit)
      ensures !(Matches(UpTo(s, i - 1), hit) && Matches(InBucket(s, i), hit))
    {
      BucketIsBetween(hit.seconds, i);
    }
    NumberSplits(hits, UpTo(s, i - 1), InBucket(s, i), UpTo(s, i));
  }

  /** A latency falls in a bucket when it is within its bound and not within the one before. */
  lemma BucketIsBetween(x: real, i: nat)
    requires 0 < i < BUCKETS
    ensures FirstBucket(x) == i <==> Within(x, i) && !Within(x, i - 1)
    ensures Within(x, i - 1) ==> Within(x, i)
  {
    WithinAbove(x, FirstBucket(x));
    if Within(x, i - 1) { WithinNext(x, i - 1); }
  }

  lemma WithinAbove(x: real, k: nat)
    requires k < BUCKETS && Within(x, k)
    ensures forall j | k <= j < BUCKETS :: Within(x, j)
  {
    forall j | k <= j < BUCKETS
      ensures Within(x, j)
    {
      WithinUpTo(x, k, j);
    }
  }

  lemma {:induction false} WithinUpTo(x: real, k: nat, j: nat)
    requires k <= j < BUCKETS && Within(x, k)
    ensures Within(x, j)
    decreases j
  {
    if k < j {
      WithinUpTo(x, k, j - 1);
      WithinNext(x, j - 1);
    }
  }

  /** The running total over the buckets is the number of requests within the bound. */
  lemma {:induction false} CumulativeIsUpTo(h: Histogram, hits: seq<Hit>, s: Series, i: nat)
    requires HistogramOk(h, hits, s) && i < BUCKETS
    ensures Cumulative(h.bucketCounts, i + 1) == Number(hits, UpTo(s, i))
  {
    assert h.bucketCounts[i] == Number(hits, InBucket(s, i));
    if i > 0 {
      CumulativeIsUpTo(h, hits, s, i - 1);
      UpToSplits(hits, s, i);
    } else {
      assert Cumulative(h.bucketCounts, 0) == 0;
      SameNumber(hits, UpTo(s, 0), InBucket(s, 0));
    }
  }

  lemma {:induction false} CounterLinesTrue(m: Metrics, hits: seq<Hit>, n: nat)
    requires Inv(m, hits) && n <= |m.counts.order|
    ensures forall line <- CounterLines(m.counts, n) :: TrueLine(hits, line)
  {
    if n > 0 {
      CounterLinesTrue(m, hits, n - 1);
      assert CounterOk(m, hits, m.counts.order[n - 1]);
    }
  }

  lemma {:induction false} BucketLinesTrue(h: Histogram, hits: seq<Hit>, s: Series, n: nat)
    requires HistogramOk(h, hits, s) && n <= BUCKETS
    ensures forall line <- BucketLines(s, h, n) :: TrueLine(hits, line)
  {
    if n > 0 {
      BucketLinesTrue(h, hits, s, n - 1);
      CumulativeIsUpTo(h, hits, s, n - 1);
    }
  }

  lemma {:induction false} HistogramLinesTrue(m: Metrics, hits: seq<Hit>, n: nat)
    requires Inv(m, hits) && n <= |m.histograms.order|
    ensures forall line <- HistogramLines(m.histograms, n) :: TrueLine(hits, line)
  {
    if n > 0 {
      HistogramLinesTrue(m, hits, n - 1);
      var s := m.histograms.order[n - 1];
      assert SeriesOk(m, hits, s);
      BucketLinesTrue(Get(m.histograms, s, NO_HISTOGRAM), hits, s, BUCKETS);
    }
  }

  /** After any history, whatever the caps dropped, every exported line is true of the accepted
      requests: a counter is their number, a `le` bucket the number within its bound. */
  lemma ExportIsTrue(history: seq<Request>)
    ensures forall line <- Exported(After(history)) :: TrueLine(Accepted(history), line)
  {
    var m, hits := After(history), Accepted(history);
    HistoryKeepsInv(history);
    CounterLinesTrue(m, hits, |m.counts.order|);
    HistogramLinesTrue(m, hits, |m.histograms.order|);
  }

  lemma {:induction false} BucketLineAt(s: Series, h: Histogram, n: nat, i: nat)
    requires i < n <= BUCKETS
    ensures BucketLine(s, i, Cumulative(h.bucketCounts, i + 1)) in BucketLines(s, h, n)
  {
    if i + 1 < n { BucketLineAt(s, h, n - 1, i); }
  }

  lemma {:induction false} CounterLineAt(counts: Dict<CounterKey, nat>, n: nat, i: nat)
    requires i < n <= |counts.order|
    ensures CounterLine(counts.order[i], Get(counts, counts.order[i], 0)) in CounterLines(counts, n)
  {
    if i + 1 < n { CounterLineAt(counts, n - 1, i); }
  }

  lemma {:induction false} SeriesLinesAt(hs: Dict<Series, Histogram>, n: nat, i: nat, line: Line)
    requires i < n <= |hs.order| && line in SeriesLines(hs.order[i], Get(hs, hs.order[i], NO_HISTOGRAM))
    ensures line in HistogramLines(hs, n)
  {
    if i + 1 < n { SeriesLinesAt(hs, n - 1, i, line); }
  }

  /** Nothing accepted is missing from the export: its counter, each of its buckets, the sum and the
      count of its series are there. */
  lemma ExportIsComplete(history: seq<Request>, i: nat, le: nat)
    requires i < |Accepted(history)| && le < BUCKETS
    ensures var hits := Accepted(history);
            var key := hits[i].key;
            var lines := Exported(After(history));
            && CounterLine(key, Number(hits, InCounter(key))) in lines
            && BucketLine(key.series, le, Number(hits, UpTo(key.series, le))) in lines
            && SumLine(key.series, Total(hits, key.series)) in lines
            && CountLine(key.series, Number(hits, InSeries(key.series))) in lines
  {
    var m, hits := After(history), Accepted(history);
    var key := hits[i].key;
    HistoryKeepsInv(history);
    NumberPositive(hits, InCounter(key), i);
    NumberPositive(hits, InSeries(key.series), i);
    assert CounterOk(m, hits, key) && SeriesOk(m, hits, key.series);
    var a :| 0 <= a < |m.counts.order| && m.counts.order[a] == key;
    CounterLineAt(m.counts, |m.counts.order|, a);
    var b :| 0 <= b < |m.histograms.order| && m.histograms.order[b] == key.series;
    var h := Get(m.histograms, key.series, NO_HISTOGRAM);
    CumulativeIsUpTo(h, hits, key.series, le);
    BucketLineAt(key.series, h, BUCKETS, le);
    var bucket := BucketLine(key.series, le, Cumulative(h.bucketCounts, le + 1));
    SeriesLinesAt(m.histograms, |m.histograms.order|, b, bucket);
    SeriesLinesAt(m.histograms, |m.histograms.order|, b, SumLine(key.series, h.sum));
    SeriesLinesAt(m.histograms, |m.histograms.order|, b, CountLine(key.series, h.count));
  }

  /** The bucket values of a series never decrease and end at its count. */
  lemma BucketsClimbToCount(history: seq<Request>, s: Series, i: nat, j: nat)
    requires i <= j < BUCKETS
    ensures var h := Get(After(history).histograms, s, NO_HISTOGRAM);
            Cumulative(h.bucketCounts, i + 1) <= Cumulative(h.bucketCounts, j + 1)
            <= Cumulative(h.bucketCounts, BUCKETS) == h.count
  {
    var hits := Accepted(history);
    var h := Get(After(history).histograms, s, NO_HISTOGRAM);
    HistoryKeepsInv(history);
    assert SeriesOk(After(history), hits, s);
    CumulativeIsUpTo(h, hits, s, BUCKETS - 1);
    SameNumber(hits, UpTo(s, BUCKETS - 1), InSeries(s));
    CumulativeGrows(h.bucketCounts, i + 1, j + 1);
    CumulativeGrows(h.bucketCounts, j + 1, BUCKETS);
  }

  lemma {:induction false} CumulativeGrows(counts: Buckets, m: nat, n: nat)
    requires m <= n <= BUCKETS
    ensures Cumulative(counts, m) <= Cumulative(counts, n)
    decreases n
  {
    if m < n { CumulativeGrows(counts, m, n - 1); }
  }

  /** The counters of one series, summed over its statuses. */
  function SumOverStatus(counts: Dict<CounterKey, nat>, s: Series, n: nat): nat
    requires n <= |counts.order|
  {
    if n == 0 then 0
    else
      var k := counts.order[n - 1];
      SumOverStatus(counts, s, n - 1) + if k.series == s then Get(counts, k, 0) else 0
  }

  lemma {:induction false} SumOverFirst(m: Metrics, hits: seq<Hit>, s: Series, n: nat)
    requires Inv(m, hits) && n <= |m.counts.order|
    ensures SumOverStatus(m.counts, s, n) == Number(hits, AmongCounters(s, m.counts.order[..n]))
  {
    var order := m.counts.order;
    if n == 0 {
      NoneAmong(hits, s);
    } else {
      SumOverFirst(m, hits, s, n - 1);
      assert CounterOk(m, hits, order[n - 1]);
      assert order[..n] == order[..n - 1] + [order[n - 1]];
      assert order[n - 1] !in order[..n - 1];
      OneMoreCounter(hits, s, order[..n - 1], order[n - 1]);
    }
  }

  lemma {:induction false} NoneAmong(hits: seq<Hit>, s: Series)
    ensures Number(hits, AmongCounters(s, [])) == 0
  {
    if hits != [] { NoneAmong(hits[..|hits| - 1], s); }
  }

  lemma OneMoreCounter(hits: seq<Hit>, s: Series, keys: seq<CounterKey>, k: CounterKey)
    requires k !in keys
    ensures Number(hits, AmongCounters(s, keys + [k]))
         == Number(hits, AmongCounters(s, keys)) + if k.series == s then Number(hits, InCounter(k)) else 0
  {
    if k.series == s {
      NumberSplits(hits, AmongCounters(s, keys), InCounter(k), AmongCounters(s, keys + [k]));
    } else {
      SameNumber(hits, AmongCounters(s, keys), AmongCounters(s, keys + [k]));
    }
  }

  /** The counters of a series, over all statuses, add up to its histogram's count. */
  lemma StatusesSumToCount(history: seq<Request>, s: Series)
    ensures var m := After(history);
            SumOverStatus(m.counts, s, |m.counts.order|) == Get(m.histograms, s, NO_HISTOGRAM).count
  {
    var m, hits := After(history), Accepted(history);
    var order := m.counts.order;
    HistoryKeepsInv(history);
    assert SeriesOk(m, hits, s);
    SumOverFirst(m, hits, s, |order|);
    assert order[..|order|] == order;
    AllAmong(m, hits, hits, s);
  }

  lemma {:induction false} AllAmong(m: Metrics, hits: seq<Hit>, some: seq<Hit>, s: Series)
    requires Inv(m, hits) && some <= hits
    ensures Number(some, AmongCounters(s, m.counts.order)) == Number(some, InSeries(s))
  {
    if some != [] {
      var n := |some| - 1;
      AllAmong(m, hits, some[..n], s);
      NumberPositive(hits, InCounter(some[n].key), n);
      assert CounterOk(m, hits, some[n].key);
    }
  }

  // ------------------------------------------------------------ the collector

  class HTTPMetricsCollector {
    var requestCounts: Dict<CounterKey, nat>
    var histogramData: Dict<Series, Histogram>
    ghost var history: seq<Request>

    ghost function Abs(): Metrics
      reads this
    {
      Metrics(requestCounts, histogramData)
    }

    ghost predicate Valid()
      reads this
    {
      Abs() == After(history)
    }

    constructor ()
      ensures Valid() && history == []
    {
      requestCounts, histogramData := Dict([], map[]), Dict([], map[]);
      history := [];
    }

    /** `record_request` */
    method RecordRequest(r: Request)
      requires Valid()
      modifies this
      ensures Valid() && history == old(history) + [r]
      ensures Abs() == Record(old(Abs()), r)
    {
      AfterOneMore(history, r);
      history := history + [r];
      if r.path.None? || ShouldFilterRoute(r.path.value) {
        return;
      }
      StoreIfRoom(CounterKey(Series(r.verb, r.path.value), r.status), r.latencyMs / 1000.0);
    }

    /** `record_request` once the route is known to count. */
    method StoreIfRoom(key: CounterKey, seconds: real)
      modifies this`requestCounts, this`histogramData
      ensures Abs() == if HasRoom(old(Abs()), key) then AddHit(old(Abs()), Hit(key, seconds)) else old(Abs())
    {
      if key !in requestCounts.at && |requestCounts.order| >= MAX_REQUEST_COUNT_ENTRIES {
        return;
      }
      if key.series !in histogramData.at && |histogramData.order| >= MAX_HISTOGRAM_ENTRIES {
        return;
      }
      StoreHit(key, seconds);
    }

    /** The updates of the two tables. */
    method StoreHit(key: CounterKey, seconds: real)
      modifies this`requestCounts, this`histogramData
      ensures Abs() == AddHit(old(Abs()), Hit(key, seconds))
    {
      requestCounts := Put(requestCounts, key, Get(requestCounts, key, 0) + 1);
      var data := Get(histogramData, key.series, NO_HISTOGRAM);
      var bucketCounts := CountLatency(data.bucketCounts, seconds);
      data := Histogram(bucketCounts, data.sum + seconds, data.count + 1);
      histogramData := Put(histogramData, key.series, data);
    }

    /** `get_metrics` in the Prometheus format. */
    method GetMetrics() returns (lines: seq<Line>)
      requires Valid()
      ensures lines == Exported(Abs())
      ensures forall line <- lines :: TrueLine(Accepted(history), line)
    {
      lines := [];
      for i := 0 to |requestCounts.order|
        invariant lines == CounterLines(requestCounts, i)
      {
        var key := requestCounts.order[i];
        lines := lines + [CounterLine(key, Get(requestCounts, key, 0))];
      }
      ghost var counters := lines;
      for i := 0 to |histogramData.order|
        invariant lines == counters + HistogramLines(histogramData, i)
      {
        var series := histogramData.order[i];
        var data := Get(histogramData, series, NO_HISTOGRAM);
        var more := LinesOf(series, data);
        lines := lines + more;
      }
      ExportIsTrue(history);
    }
  }

  /** The loop over the bounds: one more in the first bucket the latency is within. */
  method CountLatency(before: Buckets, seconds: real) returns (counts: Buckets)
    ensures var i := FirstBucket(seconds); counts == before[i := before[i] + 1]
  {
    counts := before;
    for i := 0 to BUCKETS
      invariant counts == before && i <= FirstBucket(seconds)
    {
      if Within(seconds, i) {
        return counts[i := counts[i] + 1];
      }
    }
  }

  /** The lines of one histogram, accumulated bucket by bucket. */
  method LinesOf(series: Series, data: Histogram) returns (lines: seq<Line>)
    ensures lines == SeriesLines(series, data)
  {
    lines := [];
    var acc := 0;
    for i := 0 to BUCKETS
      invariant acc == Cumulative(data.bucketCounts, i)
      invariant lines == BucketLines(series, data, i)
    {
      acc := acc + data.bucketCounts[i];
      lines := lines + [BucketLine(series, i, acc)];
    }
    lines := lines + [SumLine(series, data.sum), CountLine(series, data.count)];
  }
}
