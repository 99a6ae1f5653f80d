/** What the metrics say of the requests themselves, by verb, path, status and milliseconds. */
module HttpRequests {
  import opened Wrappers
  import opened HttpMetrics

  /** Routes that are not counted: those that end like one of the server's own. */
  ghost predicate Counted(r: Request) {
    r.path.Some?
    && !exists prefix: string, suffix: string ::
         r.path.value == prefix + suffix && suffix in ["/ok", "/info", "/metrics", "/docs", "/openapi.json"]
  }

  /** The requests of a history that were not dropped. */
  function AcceptedRequests(history: seq<Request>): seq<Request> {
    if history == [] then []
    else
      var front, r := history[..|history| - 1], history[|history| - 1];
      AcceptedRequests(front) + if Accepts(After(front), r) then [r] else []
  }

  // ------------------------------------------------------------ counting requests

  datatype Query =
    | OfSeries(verb: string, path: string)
    | OfStatus(verb: string, path: string, status: int)
    | AtMost(verb: string, path: string, bound: Bound)

  /** The latency is at most the bound, which is in seconds. */
  predicate Quick(latencyMs: real, bound: Bound) {
    bound.Finite? ==> latencyMs <= 1000.0 * bound.seconds
  }

  predicate Asks(q: Query, r: Request) {
    r.verb == q.verb && r.path == Some(q.path)
    && match q
       case OfSeries(_, _) => true
       case OfStatus(_, _, status) => r.status == status
       case AtMost(_, _, bound) => Quick(r.latencyMs, bound)
  }

  function Count(rs: seq<Request>, q: Query): nat {
    if rs == [] then 0 else Count(rs[..|rs| - 1], q) + if Asks(q, rs[|rs| - 1]) then 1 else 0
  }

  function TotalMs(rs: seq<Request>, verb: string, path: string): real {
    if rs == [] then 0.0
    else
      var r := rs[|rs| - 1];
      TotalMs(rs[..|rs| - 1], verb, path) + if r.verb == verb && r.path == Some(path) then r.latencyMs else 0.0
  }

  lemma CountAppend(rs: seq<Request>, r: Request, q: Query)
    ensures Count(rs + [r], q) == Count(rs, q) + if Asks(q, r) then 1 else 0
    ensures TotalMs(rs + [r], q.verb, q.path)
         == TotalMs(rs, q.verb, q.path) + if r.verb == q.verb && r.path == Some(q.path) then r.latencyMs else 0.0
  {
    assert (rs + [r])[..|rs|] == rs;
  }

  // ------------------------------------------------------------ requests and hits

  /** The counting of hits and the counting of requests ask for the same. */
  ghost predicate SameQuestion(w: Which, q: Query) {
    forall r: Request :: r.path.Some? ==> (Matches(w, HitOf(r)) <==> Asks(q, r))
  }

  lemma AcceptedStep(history: seq<Request>)
    requires history != []
    ensures var front, r := history[..|history| - 1], history[|history| - 1];
            if Accepts(After(front), r) then
              r.path.Some? && Accepted(history) == Accepted(front) + [HitOf(r)]
              && AcceptedRequests(history) == AcceptedRequests(front) + [r]
            else Accepted(history) == Accepted(front) && AcceptedRequests(history) == AcceptedRequests(front)
  {
  }

  lemma {:induction false} NumberIsCount(history: seq<Request>, w: Which, q: Query)
    requires SameQuestion(w, q)
    ensures Number(Accepted(history), w) == Count(AcceptedRequests(history), q)
  {
    if history != [] {
      var front, r := history[..|history| - 1], history[|history| - 1];
      NumberIsCount(front, w, q);
      AcceptedStep(history);
      if Accepts(After(front), r) {
        NumberAppend(Accepted(front), HitOf(r), w);
        CountAppend(AcceptedRequests(front), r, q);
        assert Matches(w, HitOf(r)) <==> Asks(q, r);
      }
    }
  }

  lemma {:induction false} TotalIsTotalMs(history: seq<Request>, s: Series)
    ensures 1000.0 * Total(Accepted(history), s) == TotalMs(AcceptedRequests(history), s.verb, s.path)
  {
    if history != [] {
      var front, r := history[..|history| - 1], history[|history| - 1];
      TotalIsTotalMs(front, s);
      AcceptedStep(history);
      if Accepts(After(front), r) {
        TotalAppend(Accepted(front), HitOf(r), s);
        CountAppend(AcceptedRequests(front), r, OfSeries(s.verb, s.path));
      }
    }
  }

  lemma TotalAppend(hits: seq<Hit>, hit: Hit, s: Series)
    ensures Total(hits + [hit], s) == Total(hits, s) + if hit.key.series == s then hit.seconds else 0.0
  {
    assert (hits + [hit])[..|hits|] == hits;
  }

  lemma WithinIsQuick(latencyMs: real, le: nat)
    requires le < BUCKETS
    ensures Within(latencyMs / 1000.0, le) <==> Quick(latencyMs, HTTP_LATENCY_BUCKETS[le])
  {
  }

  lemma BucketQuestion(s: Series, le: nat)
    requires le < BUCKETS
    ensures SameQuestion(UpTo(s, le), AtMost(s.verb, s.path, HTTP_LATENCY_BUCKETS[le]))
  {
    forall r: Request | r.path.Some?
      ensures Matches(UpTo(s, le), HitOf(r)) <==> Asks(AtMost(s.verb, s.path, HTTP_LATENCY_BUCKETS[le]), r)
    {
      WithinIsQuick(r.latencyMs, le);
    }
  }

  // ------------------------------------------------------------ the export

  /** What a line says of requests. */
  ghost predicate TrueOf(rs: seq<Request>, line: Line) {
    match line
    case CounterLine(k, n) => n == Count(rs, OfStatus(k.series.verb, k.series.path, k.status))
    case BucketLine(s, le, n) => le < BUCKETS && n == Count(rs, AtMost(s.verb, s.path, HTTP_LATENCY_BUCKETS[le]))
    case SumLine(s, x) => 1000.0 * x == TotalMs(rs, s.verb, s.path)
    case CountLine(s, n) => n == Count(rs, OfSeries(s.verb, s.path))
  }

  lemma TrueLineIsTrueOf(history: seq<Request>, line: Line)
    requires TrueLine(Accepted(history), line)
    ensures TrueOf(AcceptedRequests(history), line)
  {
    match line
    case CounterLine(k, _) =>
      NumberIsCount(history, InCounter(k), OfStatus(k.series.verb, k.series.path, k.status));
    case BucketLine(s, le, _) =>
      BucketQuestion(s, le);
      NumberIsCount(history, UpTo(s, le), AtMost(s.verb, s.path, HTTP_LATENCY_BUCKETS[le]));
    case SumLine(s, _) => TotalIsTotalMs(history, s);
    case CountLine(s, _) => NumberIsCount(history, InSeries(s), OfSeries(s.verb, s.path));
  }

  /** Every exported line is true of the accepted requests: a counter is the number with its verb,
      path and status; a `le` bucket the number whose milliseconds are at most a thousand times
      its bound; a sum, in milliseconds, the total of theirs. */
  lemma ExportTellsTheRequests(history: seq<Request>)
    ensures forall line <- Exported(After(history)) :: TrueOf(AcceptedRequests(history), line)
  {
    ExportIsTrue(history);
    forall line | line in Exported(After(history))
      ensures TrueOf(AcceptedRequests(history), line)
    {
      TrueLineIsTrueOf(history, line);
    }
  }

  lemma {:induction false} AcceptedIsHits(history: seq<Request>)
    ensures |AcceptedRequests(history)| == |Accepted(history)|
    ensures forall i | 0 <= i < |Accepted(history)| ::
              AcceptedRequests(history)[i].path.Some? && Accepted(history)[i] == HitOf(AcceptedRequests(history)[i])
  {
    if history != [] { AcceptedIsHits(history[..|history| - 1]); }
  }

  /** The lines of a key, one of them for a bucket, are among these lines. */
  predicate HasLines(rs: seq<Request>, lines: seq<Line>, key: CounterKey, le: nat)
    requires le < BUCKETS
  {
    var s := key.series;
    && CounterLine(key, Count(rs, OfStatus(s.verb, s.path, key.status))) in lines
    && BucketLine(s, le, Count(rs, AtMost(s.verb, s.path, HTTP_LATENCY_BUCKETS[le]))) in lines
    && SumLine(s, TotalMs(rs, s.verb, s.path) / 1000.0) in lines
    && CountLine(s, Count(rs, OfSeries(s.verb, s.path))) in lines
  }

  lemma ExportHasTheHit(history: seq<Request>, i: nat, le: nat)
    requires i < |Accepted(history)| && le < BUCKETS
    ensures HasLines(AcceptedRequests(history), Exported(After(history)), Accepted(history)[i].key, le)
  {
    var key := Accepted(history)[i].key;
    ExportIsComplete(history, i, le);
    LinesInRequests(history, key, le);
    LinesAre(AcceptedRequests(history), Accepted(history), Exported(After(history)), key, le);
  }

  lemma LinesAre(rs: seq<Request>, hits: seq<Hit>, lines: seq<Line>, key: CounterKey, le: nat)
    requires le < BUCKETS
    requires CounterLine(key, Number(hits, InCounter(key))) in lines
    requires BucketLine(key.series, le, Number(hits, UpTo(key.series, le))) in lines
    requires SumLine(key.series, Total(hits, key.series)) in lines
    requires CountLine(key.series, Number(hits, InSeries(key.series))) in lines
    requires SameNumbers(rs, hits, key, le)
    ensures HasLines(rs, lines, key, le)
  {
  }

  /** Counting requests and counting hits give the same for the lines of a key. */
  ghost predicate SameNumbers(rs: seq<Request>, hits: seq<Hit>, key: CounterKey, le: nat)
    requires le < BUCKETS
  {
    var s := key.series;
    && Number(hits, InCounter(key)) == Count(rs, OfStatus(s.verb, s.path, key.status))
    && Number(hits, UpTo(s, le)) == Count(rs, AtMost(s.verb, s.path, HTTP_LATENCY_BUCKETS[le]))
    && Total(hits, s) == TotalMs(rs, s.verb, s.path) / 1000.0
    && Number(hits, InSeries(s)) == Count(rs, OfSeries(s.verb, s.path))
  }

  /** Every accepted request is in the export: its counter, each bucket, the sum and the count of
      its series. */
  lemma ExportHasTheRequest(history: seq<Request>, i: nat, le: nat)
    requires i < |AcceptedRequests(history)| && le < BUCKETS
    ensures var r := AcceptedRequests(history)[i];
            r.path.Some?
            && HasLines(AcceptedRequests(history), Exported(After(history)),
                        CounterKey(Series(r.verb, r.path.value), r.status), le)
  {
    AcceptedIsHits(history);
    ExportHasTheHit(history, i, le);
  }

  lemma LinesInRequests(history: seq<Request>, key: CounterKey, le: nat)
    requires le < BUCKETS
    ensures SameNumbers(AcceptedRequests(history), Accepted(history), key, le)
  {
    var s := key.series;
    NumberIsCount(history, InCounter(key), OfStatus(s.verb, s.path, key.status));
    BucketQuestion(s, le);
    NumberIsCount(history, UpTo(s, le), AtMost(s.verb, s.path, HTTP_LATENCY_BUCKETS[le]));
    TotalIsTotalMs(history, s);
    NumberIsCount(history, InSeries(s), OfSeries(s.verb, s.path));
  }

  // ------------------------------------------------------------ what is dropped

  /** The counter keys and the series of requests. */
  function KnownKeys(rs: seq<Request>): set<(string, Option<string>, int)> {
    set r <- rs :: (r.verb, r.path, r.status)
  }

  function KnownSeries(rs: seq<Request>): set<(string, Option<string>)> {
    set r <- rs :: (r.verb, r.path)
  }

  lemma {:induction false} NumberFinds(hits: seq<Hit>, w: Which)
    requires Number(hits, w) > 0
    ensures exists i :: 0 <= i < |hits| && Matches(w, hits[i])
  {
    var n := |hits| - 1;
    if !Matches(w, hits[n]) {
      NumberFinds(hits[..n], w);
      var i :| 0 <= i < n && Matches(w, hits[..n][i]);
      assert hits[i] == hits[..n][i];
    }
  }

  lemma {:induction false} AsManyAs<T>(order: seq<T>, s: set<T>)
    requires forall i, j | 0 <= i < j < |order| :: order[i] != order[j]
    requires forall x :: x in order <==> x in s
    ensures |order| == |s|
  {
    if order != [] {
      var n := |order| - 1;
      var last := order[n];
      assert forall x :: x in order <==> x in order[..n] || x == last;
      AsManyAs(order[..n], s - {last});
    } else {
      assert s == {};
    }
  }

  function KeyParts(k: CounterKey): (string, Option<string>, int) {
    (k.series.verb, Some(k.series.path), k.status)
  }

  function SeriesParts(s: Series): (string, Option<string>) { (s.verb, Some(s.path)) }

  lemma {:induction false} PartsStayDistinct<T(!new), U(!new)>(order: seq<T>, parts: T -> U) returns (mapped: seq<U>)
    requires forall i, j | 0 <= i < j < |order| :: order[i] != order[j]
    requires forall x, y :: parts(x) == parts(y) ==> x == y
    ensures |mapped| == |order| && forall i | 0 <= i < |order| :: mapped[i] == parts(order[i])
    ensures forall i, j | 0 <= i < j < |mapped| :: mapped[i] != mapped[j]
  {
    if order == [] {
      mapped := [];
    } else {
      var n := |order| - 1;
      mapped := PartsStayDistinct(order[..n], parts);
      mapped := mapped + [parts(order[n])];
    }
  }

  lemma KeyInTable(history: seq<Request>, k: CounterKey)
    ensures k in After(history).counts.order <==> Number(Accepted(history), InCounter(k)) > 0
  {
    HistoryKeepsInv(history);
    assert CounterOk(After(history), Accepted(history), k);
  }

  lemma KeyOfHit(r: Request, k: CounterKey)
    requires r.path.Some?
    ensures Matches(InCounter(k), HitOf(r)) <==> (r.verb, r.path, r.status) == KeyParts(k)
  {
  }

  lemma KeyKnown(history: seq<Request>, k: CounterKey)
    ensures k in After(history).counts.order <==> KeyParts(k) in KnownKeys(AcceptedRequests(history))
  {
    var hits, rs := Accepted(history), AcceptedRequests(history);
    AcceptedIsHits(history);
    KeyInTable(history, k);
    if Number(hits, InCounter(k)) > 0 {
      NumberFinds(hits, InCounter(k));
      var i :| 0 <= i < |hits| && Matches(InCounter(k), hits[i]);
      KeyOfHit(rs[i], k);
      assert rs[i] in rs;
    }
    if KeyParts(k) in KnownKeys(rs) {
      var r :| r in rs && (r.verb, r.path, r.status) == KeyParts(k);
      var i :| 0 <= i < |rs| && rs[i] == r;
      KeyOfHit(rs[i], k);
      NumberPositive(hits, InCounter(k), i);
    }
  }

  lemma SeriesKnown(history: seq<Request>, s: Series)
    ensures s in After(history).histograms.order <==> SeriesParts(s) in KnownSeries(AcceptedRequests(history))
  {
    var m, hits, rs := After(history), Accepted(history), AcceptedRequests(history);
    HistoryKeepsInv(history);
    AcceptedIsHits(history);
    assert SeriesOk(m, hits, s);
    if s in m.histograms.order {
      NumberFinds(hits, InSeries(s));
      var i :| 0 <= i < |hits| && Matches(InSeries(s), hits[i]);
      assert hits[i] == HitOf(rs[i]) && rs[i] in rs;
    }
    if SeriesParts(s) in KnownSeries(rs) {
      var r :| r in rs && (r.verb, r.path) == SeriesParts(s);
      var i :| 0 <= i < |rs| && rs[i] == r;
      NumberPositive(hits, InSeries(s), i);
    }
  }

  /** The tables have one entry for each counter key and each series of the accepted requests. */
  lemma TablesHaveKnown(history: seq<Request>)
    ensures |After(history).counts.order| == |KnownKeys(AcceptedRequests(history))|
    ensures |After(history).histograms.order| == |KnownSeries(AcceptedRequests(history))|
  {
    KeysCount(history);
    SeriesCount(history);
  }

  lemma KeysCount(history: seq<Request>)
    ensures |After(history).counts.order| == |KnownKeys(AcceptedRequests(history))|
  {
    var order, known := After(history).counts.order, KnownKeys(AcceptedRequests(history));
    HistoryKeepsInv(history);
    AcceptedIsHits(history);
    var mapped := PartsStayDistinct(order, k => KeyParts(k));
    forall x
      ensures x in mapped <==> x in known
    {
      if x in mapped {
        var i :| 0 <= i < |mapped| && mapped[i] == x;
        KeyKnown(history, order[i]);
      }
      if x in known {
        var k := CounterKey(Series(x.0, if x.1.Some? then x.1.value else ""), x.2);
        KnownHavePaths(history);
        KeyKnown(history, k);
        var i :| 0 <= i < |order| && order[i] == k;
        assert mapped[i] == x;
      }
    }
    AsManyAs(mapped, known);
  }

  lemma KnownHavePaths(history: seq<Request>)
    ensures forall x <- KnownKeys(AcceptedRequests(history)) :: x.1.Some?
    ensures forall x <- KnownSeries(AcceptedRequests(history)) :: x.1.Some?
  {
    AcceptedIsHits(history);
  }

  lemma SeriesCount(history: seq<Request>)
    ensures |After(history).histograms.order| == |KnownSeries(AcceptedRequests(history))|
  {
    var order, known := After(history).histograms.order, KnownSeries(AcceptedRequests(history));
    HistoryKeepsInv(history);
    var mapped := PartsStayDistinct(order, s => SeriesParts(s));
    forall x
      ensures x in mapped <==> x in known
    {
      if x in mapped {
        var i :| 0 <= i < |mapped| && mapped[i] == x;
        SeriesKnown(history, order[i]);
      }
      if x in known {
        var s := Series(x.0, if x.1.Some? then x.1.value else "");
        KnownHavePaths(history);
        SeriesKnown(history, s);
        var i :| 0 <= i < |order| && order[i] == s;
        assert mapped[i] == x;
      }
    }
    AsManyAs(mapped, known);
  }

  lemma CountedIsRelevant(r: Request)
    ensures Counted(r) <==> Relevant(r)
  {
    if r.path.Some? {
      var path := r.path.value;
      if ShouldFilterRoute(path) {
        var suffix :| suffix in FILTERED_ROUTES && EndsWith(path, suffix);
        assert path == path[..|path| - |suffix|] + suffix;
      }
      if prefix: string, suffix: string :|
           path == prefix + suffix && suffix in ["/ok", "/info", "/metrics", "/docs", "/openapi.json"] {
        assert path[|path| - |suffix|..] == suffix;
        assert EndsWith(path, suffix) && suffix in FILTERED_ROUTES;
      }
    }
  }

  /** Both tables know the request, or have room for what is new in it. */
  predicate FitsCaps(rs: seq<Request>, r: Request) {
    && ((r.verb, r.path, r.status) in KnownKeys(rs) || |KnownKeys(rs)| < 5000)
    && ((r.verb, r.path) in KnownSeries(rs) || |KnownSeries(rs)| < 1000)
  }

  /** Exactly which requests are accepted: those with a path that is not one of the server's own,
      unless their counter key is new and 5000 are known, or their series is new and 1000 are. */
  lemma AcceptedIff(history: seq<Request>, r: Request)
    ensures var rs := AcceptedRequests(history);
            AcceptedRequests(history + [r]) == if Counted(r) && FitsCaps(rs, r) then rs + [r] else rs
  {
    assert (history + [r])[..|history|] == history;
    AcceptedStep(history + [r]);
    AcceptsIff(history, r);
  }

  lemma AcceptsIff(history: seq<Request>, r: Request)
    ensures Accepts(After(history), r) <==> Counted(r) && FitsCaps(AcceptedRequests(history), r)
  {
    CountedIsRelevant(r);
    if r.path.Some? {
      var key := HitOf(r).key;
      HistoryKeepsInv(history);
      TablesHaveKnown(history);
      KeyKnown(history, key);
      SeriesKnown(history, key.series);
    }
  }

  // ------------------------------------------------------------ nothing twice

  lemma {:induction false} CounterLinesLength(counts: Dict<CounterKey, nat>, n: nat)
    requires n <= |counts.order|
    ensures |CounterLines(counts, n)| == n
  {
    if n > 0 { CounterLinesLength(counts, n - 1); }
  }

  lemma {:induction false} BucketLinesLength(s: Series, h: Histogram, n: nat)
    requires n <= BUCKETS
    ensures |BucketLines(s, h, n)| == n
  {
    if n > 0 { BucketLinesLength(s, h, n - 1); }
  }

  lemma {:induction false} HistogramLinesLength(hs: Dict<Series, Histogram>, n: nat)
    requires n <= |hs.order|
    ensures |HistogramLines(hs, n)| == 16 * n
  {
    if n > 0 {
      var s := hs.order[n - 1];
      HistogramLinesLength(hs, n - 1);
      BucketLinesLength(s, Get(hs, s, NO_HISTOGRAM), BUCKETS);
    }
  }

  /** The export has one line for each counter key and sixteen for each series, so none twice. */
  lemma ExportHasNoMore(history: seq<Request>)
    ensures var rs := AcceptedRequests(history);
            |Exported(After(history))| == |KnownKeys(rs)| + 16 * |KnownSeries(rs)|
  {
    var m := After(history);
    TablesHaveKnown(history);
    CounterLinesLength(m.counts, |m.counts.order|);
    HistogramLinesLength(m.histograms, |m.histograms.order|);
  }
}
