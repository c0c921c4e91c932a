/** The chart query of mother/api/chart.go over the rollup tiers. */
module Chart {
  import opened Wrappers
  import opened Rollups

  const MAX_CHART_POINTS := 500
  const MIN_CHART_INTERVAL := 60
  const HOURLY_TIER_THRESHOLD := 3600

  const INT64_LIMIT := 0x8000_0000_0000_0000

  datatype ChartPoint = ChartPoint(ts: int, min: real, max: real, avg: real)

  datatype Response = BadRequest | Points(points: seq<ChartPoint>)

  predicate IsInt64(x: int) { -INT64_LIMIT <= x < INT64_LIMIT }

  /** Two's complement subtraction of two int64. */
  function Wrap64(x: int): int {
    (x + INT64_LIMIT) % (2 * INT64_LIMIT) - INT64_LIMIT
  }

  /** Go's division: towards zero. */
  function Quotient(a: int, b: int): int
    requires b > 0
  {
    if a >= 0 then a / b else -(-a / b)
  }

  predicate TooMany(from: int, to: int, interval: int)
    requires interval > 0
  {
    Quotient(Wrap64(to - from), interval) > MAX_CHART_POINTS
  }

  function TierWidth(interval: int): int {
    if interval < HOURLY_TIER_THRESHOLD then MINUTE_WIDTH else HOUR_WIDTH
  }

  function MaxInt(a: int, b: int): int { if a >= b then a else b }
  function MinInt(a: int, b: int): int { if a <= b then a else b }

  /** The rows of bucket b (its start is b * interval) with lo <= window_start < hi, merged. */
  function BucketAgg(t: Tier, s: int, m: string, interval: int, lo: int, hi: int, b: int): Option<Agg> {
    Merged(t, s, m, MaxInt(lo, b * interval), MinInt(hi, b * interval + interval))
  }

  function PointOf(ts: int, a: Agg): ChartPoint
    requires a.cnt != 0
  {
    ChartPoint(ts, a.min, a.max, a.sum / a.cnt as real)
  }

  /** The row a bucket answers with, if it has any. */
  function RowOf(t: Tier, s: int, m: string, interval: int, lo: int, hi: int, b: int): seq<ChartPoint> {
    var a := BucketAgg(t, s, m, interval, lo, hi, b);
    if a.Some? && a.value.cnt != 0 then [PointOf(b * interval, a.value)] else []
  }

  /** GROUP BY bucket ORDER BY bucket, from bucket b to the last. */
  function Grouped(t: Tier, s: int, m: string, interval: int, lo: int, hi: int, b: int, last: int): seq<ChartPoint>
    requires interval > 0
    decreases last + 1 - b
  {
    if b > last then []
    else RowOf(t, s, m, interval, lo, hi, b) + Grouped(t, s, m, interval, lo, hi, b + 1, last)
  }

  /** The statement's answer. Window starts are unix seconds, so the range begins at 0 at the earliest. */
  function Query(t: Tier, s: int, m: string, interval: int, from: int, to: int): seq<ChartPoint>
    requires interval > 0
  {
    var lo := MaxInt(from, 0);
    Grouped(t, s, m, interval, lo, to + 1, lo / interval, to / interval)
  }

  /** In int64 arithmetic: too many intervals fit, and the subtraction does not overflow. */
  lemma TooManyExactly(from: int, to: int, interval: int)
    requires IsInt64(from) && IsInt64(to) && from < to && interval > 0
    ensures TooMany(from, to, interval) <==> to - from < INT64_LIMIT && (to - from) / interval > MAX_CHART_POINTS
  {
    if to - from < INT64_LIMIT {
      WrapFits(to - from);
    } else {
      OverflowPasses(from, to, interval);
    }
  }

  lemma QueryShape(t: Tier, s: int, m: string, interval: int, from: int, to: int)
    requires interval > 0
    ensures AscendingMultiples(Query(t, s, m, interval, from, to), interval)
  {
    GroupedShape(t, s, m, interval, MaxInt(from, 0), to + 1, MaxInt(from, 0) / interval, to / interval);
  }

  method HandleChart(minute: Tier, hour: Tier, serverID: Option<int>, from: Option<int>, to: Option<int>,
                     interval: Option<int>, metric: string) returns (r: Response)
    requires from.Some? ==> IsInt64(from.value)
    requires to.Some? ==> IsInt64(to.value)
    // An interval below a minute is answered as one minute is; any other is answered as it was asked.
    ensures r.BadRequest? <==>
              || serverID.None? || from.None? || to.None? || interval.None? || metric == "" || to.value <= from.value
              || (to.value - from.value < INT64_LIMIT
                  && (to.value - from.value) / (if interval.value < 60 then 60 else interval.value) > 500)
    ensures r.Points? ==>
              var i := if interval.value < 60 then 60 else interval.value;
              && r.points == Query(if i < 3600 then minute else hour, serverID.value, metric, i, from.value, to.value)
              && AscendingMultiples(r.points, i)
  {
    if serverID.None? || from.None? || to.None? || interval.None? || metric == "" || to.value <= from.value {
      return BadRequest;
    }
    var width := interval.value;
    if width < MIN_CHART_INTERVAL {
      width := MIN_CHART_INTERVAL;
    }
    TooManyExactly(from.value, to.value, width);
    if Quotient(Wrap64(to.value - from.value), width) > MAX_CHART_POINTS {
      return BadRequest;
    }
    var table := hour;
    if width < HOURLY_TIER_THRESHOLD {
      table := minute;
    }
    QueryShape(table, serverID.value, metric, width, from.value, to.value);
    var points := Rows(table, serverID.value, metric, width, from.value, to.value);
    return Points(points);
  }

  lemma NextRow(points: seq<ChartPoint>, t: Tier, s: int, m: string, interval: int, lo: int, hi: int, b: int, last: int)
    requires interval > 0 && b <= last
    ensures points + Grouped(t, s, m, interval, lo, hi, b, last)
         == points + RowOf(t, s, m, interval, lo, hi, b) + Grouped(t, s, m, interval, lo, hi, b + 1, last)
  {
  }

  /** The statement's cursor: one row per bucket that has any, appended as it comes. */
  method Rows(t: Tier, s: int, m: string, interval: int, from: int, to: int) returns (points: seq<ChartPoint>)
    requires interval > 0
    ensures points == Query(t, s, m, interval, from, to)
  {
    points := [];
    var lo, b, last := MaxInt(from, 0), MaxInt(from, 0) / interval, to / interval;
    ghost var answer := Query(t, s, m, interval, from, to);
    assert points + answer == answer;
    while b <= last
      invariant points + Grouped(t, s, m, interval, lo, to + 1, b, last) == answer
      decreases last + 1 - b
    {
      NextRow(points, t, s, m, interval, lo, to + 1, b, last);
      points := points + RowOf(t, s, m, interval, lo, to + 1, b);
      b := b + 1;
    }
  }

  // ----- Size -----

  ghost predicate AscendingMultiples(points: seq<ChartPoint>, interval: int)
    requires interval > 0
  {
    && (forall i :: 0 <= i < |points| ==> points[i].ts % interval == 0)
    && (forall i, j :: 0 <= i < j < |points| ==> points[i].ts < points[j].ts)
  }

  lemma {:induction false} GroupedShape(t: Tier, s: int, m: string, interval: int, lo: int, hi: int, b: int, last: int)
    requires interval > 0
    ensures var points := Grouped(t, s, m, interval, lo, hi, b, last);
            && |points| <= MaxInt(0, last - b + 1)
            && AscendingMultiples(points, interval)
            && forall i :: 0 <= i < |points| ==> b * interval <= points[i].ts <= last * interval
    decreases last + 1 - b
  {
    if b <= last {
      GroupedShape(t, s, m, interval, lo, hi, b + 1, last);
      Multiple(b, interval);
      MulLe(b, last, interval);
      assert (b + 1) * interval == b * interval + interval;
    }
  }

  lemma Multiple(b: int, interval: int)
    requires interval > 0
    ensures (b * interval) % interval == 0 && b * interval / interval == b
  {
    DivMod(b * interval, interval);
    var q := b * interval / interval;
    if q < b { MulGap(q, b, interval); } else if b < q { MulGap(b, q, interval); }
  }

  /** How many buckets a range of at most n whole intervals can touch. */
  lemma BucketSpan(lo: int, to: int, interval: int, n: nat)
    requires interval > 0 && lo <= to && (to - lo) / interval <= n
    ensures to / interval - lo / interval <= n + 1
    ensures (to - lo / interval * interval - interval) / interval <= n
  {
    DivMod(lo, interval);
    DivMod(to, interval);
    DivMod(to - lo, interval);
    var a, b, d := lo / interval, to / interval, (to - lo) / interval;
    if b - a > n + 1 {
      MulGap(a + n + 1, b, interval);
      MulOver(a, n + 1, interval);
      MulLe(d, n, interval);
      MulOver(n, 1, interval);
    }
    DivLe(to - a * interval - interval, to - lo, interval);
  }

  lemma MulOver(a: int, b: int, interval: int)
    ensures (a + b) * interval == a * interval + b * interval
  {
  }

  lemma MulLe(a: int, b: int, interval: int)
    requires interval > 0 && a <= b
    ensures a * interval <= b * interval
  {
    if a < b { MulGap(a, b, interval); }
  }

  lemma DivLe(a: int, b: int, interval: int)
    requires interval > 0 && a <= b
    ensures a / interval <= b / interval
  {
    DivMod(a, interval);
    DivMod(b, interval);
    if b / interval < a / interval { MulGap(b / interval, a / interval, interval); }
  }

  lemma WrapFits(x: int)
    requires IsInt64(x)
    ensures Wrap64(x) == x
  {
  }

  /** While to - from fits int64, an accepted request gets at most two points more than maxChartPoints. */
  lemma ChartBound(t: Tier, s: int, m: string, interval: int, from: int, to: int)
    requires interval > 0 && from < to && IsInt64(to - from) && !TooMany(from, to, interval)
    ensures |Query(t, s, m, interval, from, to)| <= MAX_CHART_POINTS + 2
    ensures AscendingMultiples(Query(t, s, m, interval, from, to), interval)
  {
    WrapFits(to - from);
    var lo := MaxInt(from, 0);
    GroupedShape(t, s, m, interval, lo, to + 1, lo / interval, to / interval);
    if lo <= to {
      DivLe(to - lo, to - from, interval);
      BucketSpan(lo, to, interval, MAX_CHART_POINTS);
    } else {
      DivLe(to, lo, interval);
    }
  }

  // ----- The most a request can get -----

  /** The first and the last row start of a tier that a range can match. */
  function FirstRow(from: int, width: int): int
    requires width > 0
  {
    WindowStart(MaxInt(from, 0) + width - 1, width)
  }

  function LastRow(to: int, width: int): int
    requires width > 0
  {
    WindowStart(to, width)
  }

  /** The number of buckets that have a row start of the tier in range. */
  function MostPoints(from: int, to: int, interval: int, width: int): int
    requires interval > 0 && width > 0
  {
    if LastRow(to, width) < FirstRow(from, width) then 0
    else LastRow(to, width) / interval - FirstRow(from, width) / interval + 1
  }

  ghost predicate Aligned(t: Tier, width: int)
    requires width > 0
  {
    forall k :: k in t ==> RowStart(k.start, width)
  }

  predicate RowStart(x: int, width: int)
    requires width > 0
  {
    x % width == 0
  }

  lemma {:induction false} ValuesStart(h: seq<Push>, s: int, m: string, width: int, start: int)
    requires width > 0 && Values(h, s, m, width, start, start + 1) != []
    ensures RowStart(start, width)
  {
    var last := h[|h| - 1];
    if Tagged(last, s, m, width, start, start + 1) == [] {
      ValuesStart(h[..|h| - 1], s, m, width, start);
    } else {
      Multiple(last.ts / width, width);
    }
  }

  /** Every tier ever folded has its rows on multiples of its width. */
  lemma FoldedIsAligned(h: seq<Push>, width: int)
    requires width > 0
    ensures Aligned(TierOf(h, width), width)
  {
    forall k | k in TierOf(h, width) ensures RowStart(k.start, width) {
      RowHasSamples(h, width, k);
      ValuesStart(h, k.server, k.metric, width, k.start);
    }
  }

  lemma RowHasSamples(h: seq<Push>, width: int, k: Key)
    requires width > 0 && k in TierOf(h, width)
    ensures Values(h, k.server, k.metric, width, k.start, k.start + 1) != []
  {
    BucketIsExact(h, width, k);
  }

  lemma MultiplesApart(a: int, b: int, width: int)
    requires width > 0 && RowStart(a, width) && RowStart(b, width) && a < b + width
    ensures a <= b
  {
    DivMod(a, width);
    DivMod(b, width);
    if b / width < a / width { MulGap(b / width, a / width, width); }
  }

  /** A row start is in range exactly when it lies between the first and the last one. */
  lemma RowInRange(x: int, from: int, to: int, width: int)
    requires width > 0 && RowStart(x, width)
    ensures MaxInt(from, 0) <= x <= to <==> FirstRow(from, width) <= x <= LastRow(to, width)
  {
    AlignedEdge(to, width, x);
    var lo := MaxInt(from, 0);
    Multiple(x / width + 1, width);
    DivMod(x, width);
    MulOver(x / width, 1, width);
    AlignedEdge(lo + width - 1, width, x + width);
    Multiple((lo + width - 1) / width, width);
    if FirstRow(from, width) < x + width {
      MultiplesApart(FirstRow(from, width), x, width);
    }
  }

  lemma RowsAreStarts(from: int, to: int, width: int)
    requires width > 0
    ensures RowStart(FirstRow(from, width), width) && RowStart(LastRow(to, width), width)
  {
    Multiple((MaxInt(from, 0) + width - 1) / width, width);
    Multiple(to / width, width);
  }

  /** The bucket of x. */
  lemma BucketOf(x: int, c: int, interval: int)
    requires interval > 0
    ensures x / interval == c <==> c * interval <= x < c * interval + interval
  {
    DivMod(x, interval);
    var q := x / interval;
    if q < c { MulGap(q, c, interval); } else if c < q { MulGap(c, q, interval); }
  }

  lemma {:induction false} NoRowsNoPoint(t: Tier, s: int, m: string, width: int, lo: int, hi: int)
    requires width > 0 && Aligned(t, width) && forall x :: lo <= x < hi ==> !RowStart(x, width)
    ensures Merged(t, s, m, lo, hi).None?
    decreases hi - lo
  {
    if lo < hi {
      NoRowsNoPoint(t, s, m, width, lo, hi - 1);
      assert !RowStart(hi - 1, width);
    }
  }

  /** A bucket before the first row's or after the last row's is empty. */
  lemma OuterBucketEmpty(t: Tier, s: int, m: string, interval: int, from: int, to: int, width: int, c: int)
    requires interval > 0 && width > 0 && Aligned(t, width)
    requires FirstRow(from, width) <= LastRow(to, width) ==>
               c < FirstRow(from, width) / interval || LastRow(to, width) / interval < c
    ensures BucketAgg(t, s, m, interval, MaxInt(from, 0), to + 1, c).None?
  {
    var lo, hi := MaxInt(MaxInt(from, 0), c * interval), MinInt(to + 1, c * interval + interval);
    forall x | lo <= x < hi ensures !RowStart(x, width) {
      if RowStart(x, width) {
        RowInRange(x, from, to, width);
        BucketOf(x, c, interval);
        DivLe(FirstRow(from, width), x, interval);
        DivLe(x, LastRow(to, width), interval);
      }
    }
    NoRowsNoPoint(t, s, m, width, lo, hi);
  }

  ghost predicate Filled(t: Tier, s: int, m: string, interval: int, lo: int, hi: int, b: int) {
    var a := BucketAgg(t, s, m, interval, lo, hi, b);
    a.Some? && a.value.cnt != 0
  }

  lemma {:induction false} AtMostGroups(t: Tier, s: int, m: string, interval: int, lo: int, hi: int, b: int, last: int,
                                        first: int, final: int)
    requires interval > 0
    requires forall c :: b <= c <= last && !(first <= c <= final) ==> !Filled(t, s, m, interval, lo, hi, c)
    ensures |Grouped(t, s, m, interval, lo, hi, b, last)| <= MaxInt(0, MinInt(last, final) - MaxInt(b, first) + 1)
    decreases last + 1 - b
  {
    if b <= last {
      AtMostGroups(t, s, m, interval, lo, hi, b + 1, last, first, final);
      assert !(first <= b <= final) ==> !Filled(t, s, m, interval, lo, hi, b);
    }
  }

  lemma {:induction false} AtLeastGroups(t: Tier, s: int, m: string, interval: int, lo: int, hi: int, b: int, last: int,
                                         first: int, final: int)
    requires interval > 0 && final <= last
    requires forall c :: first <= c <= final ==> Filled(t, s, m, interval, lo, hi, c)
    ensures |Grouped(t, s, m, interval, lo, hi, b, last)| >= final - MaxInt(b, first) + 1
    decreases last + 1 - b
  {
    if b <= last {
      AtLeastGroups(t, s, m, interval, lo, hi, b + 1, last, first, final);
      assert first <= b <= final ==> Filled(t, s, m, interval, lo, hi, b);
    }
  }

  /** No table whose rows are where a folded tier has them gives more. */
  lemma AtMostMost(t: Tier, s: int, m: string, interval: int, from: int, to: int, width: int)
    requires interval > 0 && width > 0 && Aligned(t, width)
    ensures |Query(t, s, m, interval, from, to)| <= MostPoints(from, to, interval, width)
  {
    var lo, hi, first, last := MaxInt(from, 0), to + 1, FirstRow(from, width), LastRow(to, width);
    var a, b := if first <= last then first / interval else 1, if first <= last then last / interval else 0;
    forall c | !(a <= c <= b) ensures !Filled(t, s, m, interval, lo, hi, c) {
      OuterBucketEmpty(t, s, m, interval, from, to, width, c);
    }
    AtMostGroups(t, s, m, interval, lo, hi, lo / interval, to / interval, a, b);
    if first <= last { DivLe(first, last, interval); }
  }

  // ----- It is met -----

  function RowPush(s: int, m: string, width: int, k: int): Push {
    Push(s, width * k, map[m := 0.0])
  }

  /** A sample in each of the first n windows. */
  function EveryRow(s: int, m: string, width: int, n: nat): seq<Push> {
    if n == 0 then [] else EveryRow(s, m, width, n - 1) + [RowPush(s, m, width, n - 1)]
  }

  lemma RowWindow(s: int, m: string, width: int, k: int)
    requires width > 0
    ensures WindowStart(RowPush(s, m, width, k).ts, width) == width * k
  {
    Multiple(k, width);
    assert k * width == width * k;
  }

  lemma OneMoreRow(h: seq<Push>, p: Push, s: int, m: string, width: int, lo: int, hi: int)
    requires width > 0 && p.server == s && m in p.samples && lo <= WindowStart(p.ts, width) < hi
    ensures Values(h + [p], s, m, width, lo, hi) != []
  {
    assert (h + [p])[..|h|] == h;
  }

  lemma KeepsRow(h: seq<Push>, p: Push, s: int, m: string, width: int, lo: int, hi: int)
    requires width > 0 && Values(h, s, m, width, lo, hi) != []
    ensures Values(h + [p], s, m, width, lo, hi) != []
  {
    assert (h + [p])[..|h|] == h;
  }

  lemma {:induction false} EveryRowHas(s: int, m: string, width: int, n: nat, k: nat, lo: int, hi: int)
    requires width > 0 && k < n && lo <= width * k < hi
    ensures Values(EveryRow(s, m, width, n), s, m, width, lo, hi) != []
    decreases n
  {
    var before, p := EveryRow(s, m, width, n - 1), RowPush(s, m, width, n - 1);
    if k < n - 1 {
      EveryRowHas(s, m, width, n - 1, k, lo, hi);
      KeepsRow(before, p, s, m, width, lo, hi);
    } else {
      RowWindow(s, m, width, k);
      OneMoreRow(before, p, s, m, width, lo, hi);
    }
  }

  lemma BucketIsBatch(h: seq<Push>, s: int, m: string, width: int, interval: int, lo: int, hi: int, b: int)
    requires width > 0
    ensures var a, vs := BucketAgg(TierOf(h, width), s, m, interval, lo, hi, b),
                         Values(h, s, m, width, MaxInt(lo, b * interval), MinInt(hi, b * interval + interval));
            (a.None? <==> vs == []) && (a.Some? ==> Summarises(a.value, vs))
  {
    var l, r := MaxInt(lo, b * interval), MinInt(hi, b * interval + interval);
    MergedIsBatch(h, s, m, width, l, r);
    AggOfSummarises(Values(h, s, m, width, l, r));
  }

  /** Every bucket from the first row's to the last row's has a row start in range. */
  lemma BucketHasRow(from: int, to: int, interval: int, width: int, c: int) returns (x: int)
    requires interval >= width > 0 && FirstRow(from, width) <= LastRow(to, width)
    requires FirstRow(from, width) / interval <= c <= LastRow(to, width) / interval
    ensures RowStart(x, width) && FirstRow(from, width) <= x <= LastRow(to, width) && x / interval == c
  {
    var first, last := FirstRow(from, width), LastRow(to, width);
    RowsAreStarts(from, to, width);
    if c == first / interval {
      x := first;
    } else if c == last / interval {
      x := last;
    } else {
      x := WindowStart(c * interval + width - 1, width);
      DivMod(c * interval + width - 1, width);
      Multiple((c * interval + width - 1) / width, width);
      BucketOf(x, c, interval);
      if x <= first { DivLe(x, first, interval); }
      if last <= x { DivLe(last, x, interval); }
    }
  }

  lemma RowIndex(x: int, width: int, n: nat) returns (k: nat)
    requires width > 0 && RowStart(x, width) && 0 <= x < width * n
    ensures k < n && x == width * k
  {
    DivMod(x, width);
    if x / width < 0 { MulGap(x / width, 0, width); }
    k := x / width;
    if n <= k { MulLe(n, k, width); }
  }

  lemma RowFills(from: int, to: int, interval: int, width: int, s: int, m: string, n: nat, c: int)
    requires interval >= width > 0 && FirstRow(from, width) <= LastRow(to, width) < width * n
    requires FirstRow(from, width) / interval <= c <= LastRow(to, width) / interval
    ensures Filled(TierOf(EveryRow(s, m, width, n), width), s, m, interval, MaxInt(from, 0), to + 1, c)
  {
    var x := BucketHasRow(from, to, interval, width, c);
    RowInRange(x, from, to, width);
    var k := RowIndex(x, width, n);
    BucketOf(x, c, interval);
    SampleFills(s, m, width, n, k, interval, MaxInt(from, 0), to + 1, c);
  }

  lemma SampleFills(s: int, m: string, width: int, n: nat, k: nat, interval: int, lo: int, hi: int, c: int)
    requires interval > 0 && width > 0 && k < n && lo <= width * k < hi
    requires c * interval <= width * k < c * interval + interval
    ensures Filled(TierOf(EveryRow(s, m, width, n), width), s, m, interval, lo, hi, c)
  {
    EveryRowHas(s, m, width, n, k, MaxInt(lo, c * interval), MinInt(hi, c * interval + interval));
    BucketIsBatch(EveryRow(s, m, width, n), s, m, width, interval, lo, hi, c);
  }

  /** Some history gives exactly the most. */
  lemma MostIsMet(from: int, to: int, interval: int, width: int, s: int, m: string) returns (h: seq<Push>)
    requires interval >= width > 0
    ensures |Query(TierOf(h, width), s, m, interval, from, to)| == MostPoints(from, to, interval, width)
  {
    var first, last := FirstRow(from, width), LastRow(to, width);
    h := [];
    if first <= last {
      var n := Enough(from, to, width);
      h := EveryRow(s, m, width, n);
      var lo, hi, t := MaxInt(from, 0), to + 1, TierOf(h, width);
      forall c | first / interval <= c <= last / interval ensures Filled(t, s, m, interval, lo, hi, c) {
        RowFills(from, to, interval, width, s, m, n, c);
      }
      RowsAreStarts(from, to, width);
      RowInRange(first, from, to, width);
      RowInRange(last, from, to, width);
      DivLe(last, to, interval);
      DivLe(lo, first, interval);
      DivLe(first, last, interval);
      AtLeastGroups(t, s, m, interval, lo, hi, lo / interval, to / interval, first / interval, last / interval);
    }
    FoldedIsAligned(h, width);
    AtMostMost(TierOf(h, width), s, m, interval, from, to, width);
  }

  lemma Enough(from: int, to: int, width: int) returns (n: nat)
    requires width > 0 && FirstRow(from, width) <= LastRow(to, width)
    ensures LastRow(to, width) < width * n
  {
    RowsAreStarts(from, to, width);
    RowInRange(LastRow(to, width), from, to, width);
    DivMod(to, width);
    n := to / width + 1;
    assert width * n == to / width * width + width;
  }

  /** Can a folded tier give this request more than n points? */
  ghost predicate CanExceed(n: int, from: int, to: int, interval: int, width: int)
    requires interval > 0 && width > 0
  {
    exists h: seq<Push>, s, m :: |Query(TierOf(h, width), s, m, interval, from, to)| > n
  }

  /** Exactly how many points a request can get, for every bound: the commented 500 is one of them. */
  lemma ExceedsExactly(n: int, from: int, to: int, interval: int, width: int)
    requires interval >= width > 0
    ensures CanExceed(n, from, to, interval, width) <==> MostPoints(from, to, interval, width) > n
  {
    if MostPoints(from, to, interval, width) > n {
      var h := MostIsMet(from, to, interval, width, 1, "cpu");
      assert |Query(TierOf(h, width), 1, "cpu", interval, from, to)| > n;
    } else {
      forall h: seq<Push>, s, m ensures |Query(TierOf(h, width), s, m, interval, from, to)| <= n {
        FoldedIsAligned(h, width);
        AtMostMost(TierOf(h, width), s, m, interval, from, to, width);
      }
    }
  }

  lemma WidthFits(interval: int)
    requires interval >= MIN_CHART_INTERVAL
    ensures interval >= TierWidth(interval) == (if interval < 3600 then 60 else 3600)
  {
  }

  /** The bound of maxChartPoints + 2 is met: two-minute buckets with both ends of the range unaligned. */
  lemma ChartBoundTight() returns (interval: int, from: int, to: int)
    ensures interval >= MIN_CHART_INTERVAL && from < to && IsInt64(to - from) && !TooMany(from, to, interval)
    ensures CanExceed(MAX_CHART_POINTS + 1, from, to, interval, TierWidth(interval))
  {
    interval, from, to := 120, 60, 60179;
    WrapFits(to - from);
    WidthFits(interval);
    ExceedsExactly(MAX_CHART_POINTS + 1, from, to, interval, TierWidth(interval));
  }

  /** A row start is in the bucket its range ends in, when the interval is a multiple of the tier's width. */
  lemma LastRowOfMultiple(to: int, interval: int, width: int)
    requires interval > 0 && width > 0 && interval % width == 0
    ensures LastRow(to, width) / interval == to / interval
  {
    var c := to / interval;
    DivMod(to, interval);
    ProductAligned(c, interval, width);
    AlignedEdge(to, width, c * interval);
    DivMod(to, width);
    BucketOf(LastRow(to, width), c, interval);
  }

  lemma OverflowStartsAtZero(from: int, to: int, interval: int, width: int)
    requires interval > 0 && width > 0 && IsInt64(from) && IsInt64(to) && !IsInt64(to - from) && from < to
    ensures MostPoints(from, to, interval, width) == LastRow(to, width) / interval + 1
  {
    assert from < 0 <= to;
    DivMod(width - 1, width);
    BucketOf(width - 1, 0, width);
    assert FirstRow(from, width) == 0;
    RowsAreStarts(from, to, width);
    AlignedEdge(to, width, 0);
    BucketOf(0, 0, interval);
  }

  /**
   Exactly which accepted requests can get more than maxChartPoints + 2 points: those whose to - from overflows
   int64 and whose range still ends that many buckets after 1970, in either tier.
   */
  lemma OverflowLosesBound(from: int, to: int, interval: int)
    requires IsInt64(from) && IsInt64(to) && from < to && interval >= MIN_CHART_INTERVAL && !TooMany(from, to, interval)
    ensures var width := TierWidth(interval);
            && (CanExceed(MAX_CHART_POINTS + 2, from, to, interval, width)
                <==> !IsInt64(to - from) && LastRow(to, width) / interval >= MAX_CHART_POINTS + 2)
            && (interval % width == 0 ==> LastRow(to, width) / interval == to / interval)
  {
    var width := TierWidth(interval);
    WidthFits(interval);
    if interval % width == 0 {
      LastRowOfMultiple(to, interval, width);
    }
    if IsInt64(to - from) {
      forall h: seq<Push>, s, m ensures |Query(TierOf(h, width), s, m, interval, from, to)| <= MAX_CHART_POINTS + 2 {
        ChartBound(TierOf(h, width), s, m, interval, from, to);
      }
    } else {
      OverflowStartsAtZero(from, to, interval, width);
      ExceedsExactly(MAX_CHART_POINTS + 2, from, to, interval, width);
    }
  }

  /** The check that would refuse such a request passes on every overflow. */
  lemma OverflowPasses(from: int, to: int, interval: int)
    requires IsInt64(from) && IsInt64(to) && from < to && !IsInt64(to - from) && interval > 0
    ensures !TooMany(from, to, interval)
  {
    assert Wrap64(to - from) == to - from - 2 * INT64_LIMIT < 0;
  }

  /** So one of them is all of time up to now, by the minute. */
  lemma OverflowExample(to: int)
    requires MINUTE_WIDTH * (MAX_CHART_POINTS + 2) <= to && IsInt64(to)
    ensures !TooMany(-INT64_LIMIT, to, MINUTE_WIDTH)
    ensures CanExceed(MAX_CHART_POINTS + 2, -INT64_LIMIT, to, MINUTE_WIDTH, MINUTE_WIDTH)
  {
    OverflowPasses(-INT64_LIMIT, to, MINUTE_WIDTH);
    OverflowLosesBound(-INT64_LIMIT, to, MINUTE_WIDTH);
    DivLe(MINUTE_WIDTH * (MAX_CHART_POINTS + 2), to, MINUTE_WIDTH);
  }

  lemma RowsApart(a: int, b: int, width: int)
    requires width > 0 && RowStart(a, width) && RowStart(b, width)
    ensures b / width - a / width == (b - a) / width
  {
    var p := Factor(a, width);
    var q := Factor(b, width);
    MulOver(q - p, p, width);
    Multiple(q - p, width);
    Multiple(p, width);
    Multiple(q, width);
  }

  lemma Factor(a: int, width: int) returns (p: int)
    requires width > 0 && RowStart(a, width)
    ensures a == p * width
  {
    DivMod(a, width);
    p := a / width;
  }

  /** Where a bucket is one tier row wide, one point less remains. */
  lemma ChartBoundOnTierWidth(h: seq<Push>, s: int, m: string, interval: int, from: int, to: int)
    requires interval > 0 && from < to && IsInt64(to - from) && !TooMany(from, to, interval)
    ensures |Query(TierOf(h, interval), s, m, interval, from, to)| <= MAX_CHART_POINTS + 1
  {
    WrapFits(to - from);
    FoldedIsAligned(h, interval);
    AtMostMost(TierOf(h, interval), s, m, interval, from, to, interval);
    var first, last := FirstRow(from, interval), LastRow(to, interval);
    if first <= last {
      RowsAreStarts(from, to, interval);
      RowInRange(first, from, to, interval);
      RowInRange(last, from, to, interval);
      RowsApart(first, last, interval);
      DivLe(last - first, to - from, interval);
    }
  }

  /** And that bound is met, in either tier, by a range of 500 whole rows. */
  lemma OnTierWidthTight(width: int) returns (from: int, to: int)
    requires width == MINUTE_WIDTH || width == HOUR_WIDTH
    ensures from < to && IsInt64(to - from) && !TooMany(from, to, width) && TierWidth(width) == width
    ensures CanExceed(MAX_CHART_POINTS, from, to, width, width)
  {
    from, to := 0, MAX_CHART_POINTS * width;
    WrapFits(to - from);
    ExceedsExactly(MAX_CHART_POINTS, from, to, width, width);
  }

  // ----- Meaning -----

  lemma {:induction false} GroupedHas(t: Tier, s: int, m: string, interval: int, lo: int, hi: int, b: int, last: int, c: int)
    requires interval > 0 && b <= c <= last
    ensures var points, a := Grouped(t, s, m, interval, lo, hi, b, last), BucketAgg(t, s, m, interval, lo, hi, c);
            && (a.Some? && a.value.cnt != 0 ==> PointOf(c * interval, a.value) in points)
            && forall p :: p in points && p.ts == c * interval ==>
                 a.Some? && a.value.cnt != 0 && p == PointOf(c * interval, a.value)
    decreases last + 1 - b
  {
    GroupedShape(t, s, m, interval, lo, hi, b + 1, last);
    MulOver(b, 1, interval);
    var tail := Grouped(t, s, m, interval, lo, hi, b + 1, last);
    if c == b {
      assert forall p :: p in tail ==> p.ts != b * interval;
    } else {
      MulGap(b, c, interval);
      GroupedHas(t, s, m, interval, lo, hi, b + 1, last, c);
    }
  }

  /** p is the exact minimum, maximum and mean of vs. */
  ghost predicate Charts(p: ChartPoint, vs: seq<real>) {
    && vs != []
    && p.min in vs && (forall v :: v in vs ==> p.min <= v)
    && p.max in vs && (forall v :: v in vs ==> v <= p.max)
    && p.avg * |vs| as real == Sum(vs)
  }

  /** The samples a chart bucket answers for: in the tier's window, window start in range. */
  function Charted(h: seq<Push>, s: int, m: string, width: int, interval: int, from: int, to: int, b: int): seq<real>
    requires width > 0
  {
    Values(h, s, m, width, MaxInt(MaxInt(from, 0), b * interval), MinInt(to + 1, b * interval + interval))
  }

  lemma PointCharts(ts: int, a: Agg, vs: seq<real>)
    requires Summarises(a, vs) && vs != []
    ensures a.cnt != 0 && Charts(PointOf(ts, a), vs)
  {
    assert a.sum / a.cnt as real * a.cnt as real == a.sum;
  }

  /** The chart read off a folded tier is the chart of the pushes themselves. */
  lemma ChartRefinesRaw(h: seq<Push>, s: int, m: string, width: int, interval: int, from: int, to: int, b: int)
    requires width > 0 && interval > 0 && MaxInt(from, 0) / interval <= b <= to / interval
    ensures var points, vs := Query(TierOf(h, width), s, m, interval, from, to), Charted(h, s, m, width, interval, from, to, b);
            && ((exists p :: p in points && p.ts == b * interval) <==> vs != [])
            && forall p :: p in points && p.ts == b * interval ==> Charts(p, vs)
  {
    var lo, vs := MaxInt(from, 0), Charted(h, s, m, width, interval, from, to, b);
    var t := TierOf(h, width);
    BucketIsBatch(h, s, m, width, interval, lo, to + 1, b);
    var a := BucketAgg(t, s, m, interval, lo, to + 1, b);
    GroupedHas(t, s, m, interval, lo, to + 1, lo / interval, to / interval, b);
    if vs != [] {
      PointCharts(b * interval, a.value, vs);
      assert PointOf(b * interval, a.value).ts == b * interval;
    }
  }

  /** Which samples those are: window start in range, and grouped by window start. */
  lemma ChartedBy(ts: int, width: int, interval: int, from: int, to: int, b: int)
    requires width > 0 && interval > 0
    ensures MaxInt(MaxInt(from, 0), b * interval) <= WindowStart(ts, width) < MinInt(to + 1, b * interval + interval)
       <==> MaxInt(from, 0) <= WindowStart(ts, width) <= to && WindowStart(ts, width) / interval == b
  {
    var x := WindowStart(ts, width);
    DivMod(x, interval);
    var q := x / interval;
    if q < b { MulGap(q, b, interval); } else if b < q { MulGap(b, q, interval); }
  }

  /** Grouping window starts is grouping timestamps exactly when the interval is a multiple of the tier's width. */
  lemma GroupingIsExact(width: int, interval: int)
    requires width > 0 && interval > 0
    ensures (forall ts :: ts >= 0 ==> WindowStart(ts, width) / interval == ts / interval) <==> interval % width == 0
  {
    if interval % width == 0 {
      forall ts | ts >= 0 ensures WindowStart(ts, width) / interval == ts / interval {
        MultipleGroups(ts, width, interval);
      }
    } else {
      DivMod(interval, width);
      assert 0 <= WindowStart(interval, width) < interval by {
        if interval / width < 0 { MulGap(interval / width, 0, width); }
      }
      assert WindowStart(interval, width) / interval == 0 && interval / interval == 1;
      assert interval >= 0;
    }
  }

  lemma MultipleGroups(ts: int, width: int, interval: int)
    requires width > 0 && interval > 0 && interval % width == 0
    ensures WindowStart(ts, width) / interval == ts / interval
  {
    var q := ts / interval;
    DivMod(ts, interval);
    ProductAligned(q, interval, width);
    AlignedEdge(ts, width, q * interval);
    DivMod(ts, width);
    var x := WindowStart(ts, width);
    DivMod(x, interval);
    var r := x / interval;
    if q < r { MulGap(q, r, interval); } else if r < q { MulGap(r, q, interval); }
  }

  lemma ProductAligned(q: int, interval: int, width: int)
    requires width > 0 && interval % width == 0
    ensures (q * interval) % width == 0
  {
    var n := interval / width;
    DivMod(interval, width);
    assert q * interval == (q * n) * width by { MulAssociates(q, n, width); }
    Multiple(q * n, width);
  }

  lemma MulAssociates(a: int, b: int, c: int)
    ensures a * (b * c) == (a * b) * c
  {
  }

  predicate OnTheHour(t: int) {
    t % HOUR_WIDTH == 0
  }

  /** From hour edges, in whole hours, both tiers give the same chart. */
  lemma TiersAgree(h: seq<Push>, s: int, m: string, interval: int, from: int, to: int)
    requires interval > 0 && OnTheHour(interval) && OnTheHour(from) && OnTheHour(to + 1)
    ensures Query(TierOf(h, MINUTE_WIDTH), s, m, interval, from, to)
         == Query(TierOf(h, HOUR_WIDTH), s, m, interval, from, to)
  {
    var lo := MaxInt(from, 0);
    GroupsAgree(h, s, m, interval, lo, to + 1, lo / interval, to / interval);
  }

  lemma BucketEdges(interval: int, lo: int, hi: int, b: int)
    requires OnTheHour(interval) && OnTheHour(lo) && OnTheHour(hi)
    ensures OnTheHour(MaxInt(lo, b * interval)) && OnTheHour(MinInt(hi, b * interval + interval))
  {
    ProductAligned(b, interval, HOUR_WIDTH);
    ProductAligned(b + 1, interval, HOUR_WIDTH);
    MulOver(b, 1, interval);
  }

  lemma BucketsAgree(h: seq<Push>, s: int, m: string, interval: int, lo: int, hi: int, b: int)
    requires OnTheHour(interval) && OnTheHour(lo) && OnTheHour(hi)
    ensures BucketAgg(TierOf(h, MINUTE_WIDTH), s, m, interval, lo, hi, b)
         == BucketAgg(TierOf(h, HOUR_WIDTH), s, m, interval, lo, hi, b)
  {
    BucketEdges(interval, lo, hi, b);
    RangesAgree(h, s, m, MaxInt(lo, b * interval), MinInt(hi, b * interval + interval));
  }

  lemma {:induction false} GroupsAgree(h: seq<Push>, s: int, m: string, interval: int, lo: int, hi: int, b: int, last: int)
    requires interval > 0 && OnTheHour(interval) && OnTheHour(lo) && OnTheHour(hi)
    ensures Grouped(TierOf(h, MINUTE_WIDTH), s, m, interval, lo, hi, b, last)
         == Grouped(TierOf(h, HOUR_WIDTH), s, m, interval, lo, hi, b, last)
    decreases last + 1 - b
  {
    if b <= last {
      BucketsAgree(h, s, m, interval, lo, hi, b);
      GroupsAgree(h, s, m, interval, lo, hi, b + 1, last);
    }
  }

  lemma RangesAgree(h: seq<Push>, s: int, m: string, lo: int, hi: int)
    requires OnTheHour(lo) && OnTheHour(hi)
    ensures Merged(TierOf(h, MINUTE_WIDTH), s, m, lo, hi) == Merged(TierOf(h, HOUR_WIDTH), s, m, lo, hi)
  {
    HourAligned(lo);
    HourAligned(hi);
    RangeIsRaw(h, s, m, MINUTE_WIDTH, lo, hi);
    RangeIsRaw(h, s, m, HOUR_WIDTH, lo, hi);
  }
}
