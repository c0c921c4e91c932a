/** The two rollup tiers of mother/store/rollup.go, folded push by push, and the batch they must equal. */
module Rollups {
  import opened Wrappers

  const MINUTE_WIDTH := 60
  const HOUR_WIDTH := 3600

  datatype Key = Key(server: int, metric: string, start: int)

  datatype Agg = Agg(min: real, max: real, sum: real, cnt: int)

  type Tier = map<Key, Agg>

  datatype Push = Push(server: int, ts: int, samples: map<string, real>)

  function Min(x: real, y: real): real { if x <= y then x else y }
  function Max(x: real, y: real): real { if x >= y then x else y }

  /** Timestamps are unix seconds after 1970, so Go's division is Dafny's. */
  function WindowStart(ts: int, width: int): int
    requires width > 0
  {
    ts / width * width
  }

  // ----- Aggregates -----

  /** ON CONFLICT DO UPDATE, and SQL's MIN, MAX and SUM over two sets of rows. */
  function Combine(a: Option<Agg>, b: Option<Agg>): Option<Agg> {
    if a.None? then b
    else if b.None? then a
    else
      var x, y := a.value, b.value;
      Some(Agg(Min(x.min, y.min), Max(x.max, y.max), x.sum + y.sum, x.cnt + y.cnt))
  }

  function One(v: real): Agg {
    Agg(v, v, v, 1)
  }

  function Sum(vs: seq<real>): real {
    if vs == [] then 0.0 else Sum(vs[..|vs| - 1]) + vs[|vs| - 1]
  }

  /** The batch aggregate of a list of samples; nothing when there is no sample. */
  function AggOf(vs: seq<real>): Option<Agg> {
    if vs == [] then None else Combine(AggOf(vs[..|vs| - 1]), Some(One(vs[|vs| - 1])))
  }

  /** a is the exact minimum, maximum, sum and count of vs. */
  ghost predicate Summarises(a: Agg, vs: seq<real>) {
    && a.cnt == |vs| && a.sum == Sum(vs)
    && a.min in vs && (forall v :: v in vs ==> a.min <= v)
    && a.max in vs && (forall v :: v in vs ==> v <= a.max)
  }

  lemma {:induction false} AggOfSummarises(vs: seq<real>)
    ensures AggOf(vs).None? <==> vs == []
    ensures vs != [] ==> Summarises(AggOf(vs).value, vs)
  {
    if vs != [] {
      var init, v := vs[..|vs| - 1], vs[|vs| - 1];
      AggOfSummarises(init);
      assert vs == init + [v];
      assert v in vs && forall x :: x in vs <==> x in init || x == v;
    }
  }

  lemma CombineAssociative(a: Option<Agg>, b: Option<Agg>, c: Option<Agg>)
    ensures Combine(Combine(a, b), c) == Combine(a, Combine(b, c))
  {
  }

  lemma {:induction false} AggOfConcat(xs: seq<real>, ys: seq<real>)
    ensures AggOf(xs + ys) == Combine(AggOf(xs), AggOf(ys))
    decreases |ys|
  {
    if ys == [] {
      assert xs + ys == xs;
    } else {
      var n := |ys| - 1;
      assert (xs + ys)[..|xs + ys| - 1] == xs + ys[..n];
      AggOfConcat(xs, ys[..n]);
      CombineAssociative(AggOf(xs), AggOf(ys[..n]), Some(One(ys[n])));
    }
  }

  lemma AggOfOne(vs: seq<real>)
    requires |vs| <= 1
    ensures AggOf(vs) == if vs == [] then None else Some(One(vs[0]))
  {
    assert vs[..0] == [];
  }

  lemma {:induction false} AggOfRemoveAt(vs: seq<real>, i: nat)
    requires i < |vs|
    ensures AggOf(vs) == Combine(AggOf(vs[..i] + vs[i + 1..]), Some(One(vs[i])))
  {
    var front, one, back := vs[..i], [vs[i]], vs[i + 1..];
    assert vs == front + one + back;
    AggOfConcat(front, one);
    AggOfConcat(front + one, back);
    AggOfConcat(front, back);
    AggOfOne(one);
    CombineCommutes(AggOf(front), AggOf(one), AggOf(back));
  }

  lemma CombineCommutes(a: Option<Agg>, b: Option<Agg>, c: Option<Agg>)
    ensures Combine(Combine(a, b), c) == Combine(Combine(a, c), b)
  {
  }

  /** The order the samples came in does not matter. */
  lemma {:induction false} AggOfPermutation(xs: seq<real>, ys: seq<real>)
    requires multiset(xs) == multiset(ys)
    ensures AggOf(xs) == AggOf(ys)
    decreases |xs|
  {
    assert |multiset(xs)| == |xs| && |multiset(ys)| == |ys|;
    if xs != [] {
      var init, v := xs[..|xs| - 1], xs[|xs| - 1];
      assert xs == init + [v];
      assert v in multiset(ys);
      var i :| 0 <= i < |ys| && ys[i] == v;
      RemoveAt(ys, i);
      assert multiset(init) == multiset(xs) - multiset{v};
      AggOfPermutation(init, ys[..i] + ys[i + 1..]);
      AggOfRemoveAt(ys, i);
    }
  }

  // ----- Folding -----

  function Lookup(t: Tier, k: Key): Option<Agg> {
    if k in t then Some(t[k]) else None
  }

  lemma SameTier(t: Tier, u: Tier)
    requires forall k :: Lookup(t, k) == Lookup(u, k)
    ensures t == u
  {
    assert forall k :: k in t <==> Lookup(t, k).Some?;
    assert forall k :: k in u <==> Lookup(u, k).Some?;
  }

  /** One upsert per sample of a push, all in the bucket the timestamp falls in. */
  function Upsert(t: Tier, width: int, p: Push): Tier
    requires width > 0
  {
    var touched := set m | m in p.samples :: Key(p.server, m, WindowStart(p.ts, width));
    map k | k in t.Keys + touched ::
      if k in touched then Combine(Lookup(t, k), Some(One(p.samples[k.metric]))).value else t[k]
  }

  function TierOf(h: seq<Push>, width: int): Tier
    requires width > 0
  {
    if h == [] then map[] else Upsert(TierOf(h[..|h| - 1], width), width, h[|h| - 1])
  }

  function Tagged(p: Push, server: int, metric: string, width: int, lo: int, hi: int): seq<real>
    requires width > 0
  {
    if p.server == server && metric in p.samples && lo <= WindowStart(p.ts, width) < hi then [p.samples[metric]] else []
  }

  /** The samples of one series whose bucket of the given width starts in [lo, hi). */
  function Values(h: seq<Push>, server: int, metric: string, width: int, lo: int, hi: int): seq<real>
    requires width > 0
  {
    if h == [] then []
    else Values(h[..|h| - 1], server, metric, width, lo, hi) + Tagged(h[|h| - 1], server, metric, width, lo, hi)
  }

  /** What a key looks up once the samples named in `done` have been upserted. */
  function Upserted(t: Tier, width: int, p: Push, done: set<string>, k: Key): Option<Agg>
    requires width > 0 && done <= p.samples.Keys
  {
    if k.server == p.server && k.start == WindowStart(p.ts, width) && k.metric in done
    then Combine(Lookup(t, k), Some(One(p.samples[k.metric])))
    else Lookup(t, k)
  }

  lemma LookupAfterUpsert(t: Tier, width: int, p: Push, k: Key)
    requires width > 0
    ensures Lookup(Upsert(t, width, p), k) == Upserted(t, width, p, p.samples.Keys, k)
  {
    var touched := set m | m in p.samples :: Key(p.server, m, WindowStart(p.ts, width));
    assert k in touched <==> k.server == p.server && k.start == WindowStart(p.ts, width) && k.metric in p.samples;
  }

  /** A push adds to a bucket exactly the samples it has in it. */
  lemma UpsertCombines(t: Tier, width: int, p: Push, k: Key)
    requires width > 0
    ensures Lookup(Upsert(t, width, p), k)
         == Combine(Lookup(t, k), AggOf(Tagged(p, k.server, k.metric, width, k.start, k.start + 1)))
  {
    LookupAfterUpsert(t, width, p, k);
    AggOfOne(Tagged(p, k.server, k.metric, width, k.start, k.start + 1));
  }

  /** Incremental equals batch: a bucket exists exactly when it has a sample, and summarises its samples. */
  lemma {:induction false} FoldIsBatch(h: seq<Push>, width: int, k: Key)
    requires width > 0
    ensures Lookup(TierOf(h, width), k) == AggOf(Values(h, k.server, k.metric, width, k.start, k.start + 1))
  {
    if h != [] {
      var init, p := h[..|h| - 1], h[|h| - 1];
      FoldIsBatch(init, width, k);
      UpsertCombines(TierOf(init, width), width, p, k);
      AggOfConcat(Values(init, k.server, k.metric, width, k.start, k.start + 1),
                  Tagged(p, k.server, k.metric, width, k.start, k.start + 1));
    }
  }

  /** What FoldIsBatch says to a reader of the tables: the exact minimum, maximum, sum and count. */
  lemma BucketIsExact(h: seq<Push>, width: int, k: Key)
    requires width > 0
    ensures var vs := Values(h, k.server, k.metric, width, k.start, k.start + 1);
            && (k in TierOf(h, width) <==> vs != [])
            && (k in TierOf(h, width) ==> Summarises(TierOf(h, width)[k], vs))
  {
    FoldIsBatch(h, width, k);
    AggOfSummarises(Values(h, k.server, k.metric, width, k.start, k.start + 1));
  }

  lemma {:induction false} ValuesConcat(a: seq<Push>, b: seq<Push>, s: int, m: string, width: int, lo: int, hi: int)
    requires width > 0
    ensures Values(a + b, s, m, width, lo, hi) == Values(a, s, m, width, lo, hi) + Values(b, s, m, width, lo, hi)
    decreases |b|
  {
    if b == [] {
      assert a + b == a;
    } else {
      var n := |b| - 1;
      assert (a + b)[..|a + b| - 1] == a + b[..n];
      ValuesConcat(a, b[..n], s, m, width, lo, hi);
    }
  }

  lemma OneValue(p: Push, s: int, m: string, width: int, lo: int, hi: int)
    requires width > 0
    ensures Values([p], s, m, width, lo, hi) == Tagged(p, s, m, width, lo, hi)
  {
    assert [p][..0] == [];
  }

  lemma DropMiddle<T>(front: seq<T>, middle: seq<T>, back: seq<T>)
    ensures multiset(front + middle + back) == multiset(front + back) + multiset(middle)
  {
  }

  lemma ValuesRemoveAt(h: seq<Push>, i: nat, s: int, m: string, width: int, lo: int, hi: int)
    requires i < |h| && width > 0
    ensures multiset(Values(h, s, m, width, lo, hi)) ==
            multiset(Values(h[..i] + h[i + 1..], s, m, width, lo, hi)) + multiset(Tagged(h[i], s, m, width, lo, hi))
  {
    var front, back := h[..i], h[i + 1..];
    assert h == front + [h[i]] + back;
    ValuesConcat(front, [h[i]], s, m, width, lo, hi);
    ValuesConcat(front + [h[i]], back, s, m, width, lo, hi);
    ValuesConcat(front, back, s, m, width, lo, hi);
    OneValue(h[i], s, m, width, lo, hi);
    DropMiddle(Values(front, s, m, width, lo, hi), Tagged(h[i], s, m, width, lo, hi), Values(back, s, m, width, lo, hi));
  }

  lemma {:induction false} ValuesPermutation(g: seq<Push>, h: seq<Push>, s: int, m: string, width: int, lo: int, hi: int)
    requires width > 0 && multiset(g) == multiset(h)
    ensures multiset(Values(g, s, m, width, lo, hi)) == multiset(Values(h, s, m, width, lo, hi))
    decreases |g|
  {
    assert |multiset(g)| == |g| && |multiset(h)| == |h|;
    if g != [] {
      var init, p := g[..|g| - 1], g[|g| - 1];
      assert g == init + [p];
      assert p in multiset(h);
      var i :| 0 <= i < |h| && h[i] == p;
      RemoveAt(h, i);
      assert multiset(init) == multiset(g) - multiset{p};
      ValuesPermutation(init, h[..i] + h[i + 1..], s, m, width, lo, hi);
      ValuesRemoveAt(h, i, s, m, width, lo, hi);
    }
  }

  /** Pushes may be folded in any order. */
  lemma FoldIgnoresOrder(g: seq<Push>, h: seq<Push>, width: int)
    requires width > 0 && multiset(g) == multiset(h)
    ensures TierOf(g, width) == TierOf(h, width)
  {
    forall k ensures Lookup(TierOf(g, width), k) == Lookup(TierOf(h, width), k) {
      FoldIsBatch(g, width, k);
      FoldIsBatch(h, width, k);
      ValuesPermutation(g, h, k.server, k.metric, width, k.start, k.start + 1);
      AggOfPermutation(Values(g, k.server, k.metric, width, k.start, k.start + 1),
                       Values(h, k.server, k.metric, width, k.start, k.start + 1));
    }
    SameTier(TierOf(g, width), TierOf(h, width));
  }

  // ----- Reading a range of buckets -----

  /** MIN, MAX, SUM and SUM over the rows of one series whose window_start is in [lo, hi). */
  function Merged(t: Tier, server: int, metric: string, lo: int, hi: int): Option<Agg>
    decreases hi - lo
  {
    if hi <= lo then None else Combine(Merged(t, server, metric, lo, hi - 1), Lookup(t, Key(server, metric, hi - 1)))
  }

  lemma {:induction false} ValuesSplit(h: seq<Push>, s: int, m: string, width: int, lo: int, mid: int, hi: int)
    requires width > 0 && lo <= mid <= hi
    ensures multiset(Values(h, s, m, width, lo, hi)) ==
            multiset(Values(h, s, m, width, lo, mid)) + multiset(Values(h, s, m, width, mid, hi))
  {
    if h != [] {
      ValuesSplit(h[..|h| - 1], s, m, width, lo, mid, hi);
    }
  }

  lemma {:induction false} ValuesEmpty(h: seq<Push>, s: int, m: string, width: int, lo: int, hi: int)
    requires width > 0 && hi <= lo
    ensures Values(h, s, m, width, lo, hi) == []
  {
    if h != [] { ValuesEmpty(h[..|h| - 1], s, m, width, lo, hi); }
  }

  /** Reading a range of buckets back equals aggregating the samples of those buckets at once. */
  lemma {:induction false} MergedIsBatch(h: seq<Push>, s: int, m: string, width: int, lo: int, hi: int)
    requires width > 0
    ensures Merged(TierOf(h, width), s, m, lo, hi) == AggOf(Values(h, s, m, width, lo, hi))
    decreases hi - lo
  {
    if hi <= lo {
      ValuesEmpty(h, s, m, width, lo, hi);
    } else {
      MergedIsBatch(h, s, m, width, lo, hi - 1);
      FoldIsBatch(h, width, Key(s, m, hi - 1));
      ValuesSplit(h, s, m, width, lo, hi - 1, hi);
      var init, last := Values(h, s, m, width, lo, hi - 1), Values(h, s, m, width, hi - 1, hi);
      AggOfConcat(init, last);
      AggOfPermutation(Values(h, s, m, width, lo, hi), init + last);
    }
  }

  /** On edges aligned to the width, a bucket starts in the range exactly when its samples lie in it. */
  lemma AlignedWindow(ts: int, width: int, lo: int, hi: int)
    requires width > 0 && lo % width == 0 && hi % width == 0
    ensures lo <= WindowStart(ts, width) < hi <==> lo <= ts < hi
  {
    AlignedEdge(ts, width, lo);
    AlignedEdge(ts, width, hi);
  }

  lemma AlignedEdge(ts: int, width: int, edge: int)
    requires width > 0 && edge % width == 0
    ensures edge <= WindowStart(ts, width) <==> edge <= ts
    ensures edge <= ts < edge + width ==> WindowStart(ts, width) == edge
  {
    var q, r, e := ts / width, ts % width, edge / width;
    DivMod(ts, width);
    DivMod(edge, width);
    if q < e { MulGap(q, e, width); }
    if e < q { MulGap(e, q, width); }
  }

  lemma DivMod(x: int, width: int)
    requires width > 0
    ensures x == x / width * width + x % width && 0 <= x % width < width
  {
  }

  lemma MulGap(a: int, b: int, width: int)
    requires width > 0 && a < b
    ensures a * width + width <= b * width
  {
    assert (b - a - 1) * width >= 0;
    assert b * width == (b - a - 1) * width + a * width + width;
  }

  lemma {:induction false} AlignedValues(h: seq<Push>, s: int, m: string, width: int, lo: int, hi: int)
    requires width > 0 && lo % width == 0 && hi % width == 0
    ensures Values(h, s, m, width, lo, hi) == Values(h, s, m, 1, lo, hi)
  {
    if h != [] {
      AlignedValues(h[..|h| - 1], s, m, width, lo, hi);
      AlignedWindow(h[|h| - 1].ts, width, lo, hi);
    }
  }

  lemma BucketOfSample(ts: int, width: int, start: int)
    requires width > 0 && start % width == 0
    ensures WindowStart(ts, width) == start <==> start <= ts < start + width
    ensures WindowStart(ts, 1) == ts
  {
    AlignedEdge(ts, width, start);
    DivMod(ts, width);
  }

  lemma {:induction false} OneBucket(h: seq<Push>, s: int, m: string, width: int, start: int)
    requires width > 0 && start % width == 0
    ensures Values(h, s, m, width, start, start + 1) == Values(h, s, m, 1, start, start + width)
  {
    if h != [] {
      OneBucket(h[..|h| - 1], s, m, width, start);
      BucketOfSample(h[|h| - 1].ts, width, start);
    }
  }

  /** A bucket read as raw samples: those stamped within its width. */
  lemma BucketIsRaw(h: seq<Push>, s: int, m: string, width: int, start: int)
    requires width > 0 && start % width == 0
    ensures Lookup(TierOf(h, width), Key(s, m, start)) == AggOf(Values(h, s, m, 1, start, start + width))
  {
    FoldIsBatch(h, width, Key(s, m, start));
    OneBucket(h, s, m, width, start);
  }

  /** An aligned range of buckets read as raw samples: those stamped within the range. */
  lemma RangeIsRaw(h: seq<Push>, s: int, m: string, width: int, lo: int, hi: int)
    requires width > 0 && lo % width == 0 && hi % width == 0
    ensures Merged(TierOf(h, width), s, m, lo, hi) == AggOf(Values(h, s, m, 1, lo, hi))
  {
    MergedIsBatch(h, s, m, width, lo, hi);
    AlignedValues(h, s, m, width, lo, hi);
  }

  lemma MinuteMultiple(k: int)
    ensures (MINUTE_WIDTH * k) % MINUTE_WIDTH == 0
  {
  }

  lemma HourAligned(t: int)
    requires t % HOUR_WIDTH == 0
    ensures t % MINUTE_WIDTH == 0 && (t + HOUR_WIDTH) % MINUTE_WIDTH == 0
  {
    var q := t / HOUR_WIDTH;
    assert t == MINUTE_WIDTH * (60 * q) && t + HOUR_WIDTH == MINUTE_WIDTH * (60 * q + 60);
    MinuteMultiple(60 * q);
    MinuteMultiple(60 * q + 60);
  }

  /** Every hour bucket is the merge of its sixty minute buckets. */
  lemma HourMergesMinutes(h: seq<Push>, s: int, m: string, start: int)
    requires start % HOUR_WIDTH == 0
    ensures Lookup(TierOf(h, HOUR_WIDTH), Key(s, m, start))
         == Merged(TierOf(h, MINUTE_WIDTH), s, m, start, start + HOUR_WIDTH)
  {
    HourAligned(start);
    BucketIsRaw(h, s, m, HOUR_WIDTH, start);
    RangeIsRaw(h, s, m, MINUTE_WIDTH, start, start + HOUR_WIDTH);
  }

  // ----- ApplySamples -----

  lemma UpsertNothing(t: Tier, width: int, p: Push)
    requires width > 0 && p.samples == map[]
    ensures Upsert(t, width, p) == t
  {
    UpsertByLookup(t, width, p, t);
  }

  /** Where the transaction of a push can fail. */
  datatype Fault = Begin | MinuteStatement | HourStatement | Commit

  class RollupTables {
    var minute: Tier
    var hour: Tier

    constructor ()
      ensures minute == map[] && hour == map[]
    {
      minute, hour := map[], map[];
    }

    /** One transaction: both tiers take the whole push, or a step of it fails and neither takes any. */
    method ApplySamples(server: int, ts: int, samples: map<string, real>, fault: Option<Fault>) returns (ok: bool)
      modifies this
      ensures ok <==> samples == map[] || fault.None?
      ensures ok ==> minute == Upsert(old(minute), MINUTE_WIDTH, Push(server, ts, samples))
      ensures ok ==> hour == Upsert(old(hour), HOUR_WIDTH, Push(server, ts, samples))
      ensures !ok ==> minute == old(minute) && hour == old(hour)
    {
      if |samples| == 0 {
        UpsertNothing(minute, MINUTE_WIDTH, Push(server, ts, samples));
        UpsertNothing(hour, HOUR_WIDTH, Push(server, ts, samples));
        return true;
      }
      if fault.Some? && (fault.value.Begin? || fault.value.MinuteStatement?) {
        return false;
      }
      var newMinute := UpsertTier(minute, MINUTE_WIDTH, server, ts, samples);
      if fault.Some? && fault.value.HourStatement? {
        return false;
      }
      var newHour := UpsertTier(hour, HOUR_WIDTH, server, ts, samples);
      if fault.Some? {
        return false;
      }
      minute, hour := newMinute, newHour;
      return true;
    }

    /** The multi-row INSERT ... ON CONFLICT for one tier. */
    static method UpsertTier(tier: Tier, width: int, server: int, ts: int, samples: map<string, real>) returns (t: Tier)
      requires width > 0
      ensures t == Upsert(tier, width, Push(server, ts, samples))
    {
      t := tier;
      ghost var p := Push(server, ts, samples);
      var windowStart := WindowStart(ts, width);
      var todo := samples.Keys;
      while todo != {}
        invariant todo <= samples.Keys
        invariant forall k :: Lookup(t, k) == Upserted(tier, width, p, samples.Keys - todo, k)
        decreases todo
      {
        var metric := Pick(todo);
        ghost var before := t;
        assert forall k :: Lookup(before, k) == Upserted(tier, width, p, samples.Keys - todo, k);
        todo := todo - {metric};
        var key := Key(server, metric, windowStart);
        if key in t {
          var row, v := t[key], samples[metric];
          t := t[key := Agg(Min(row.min, v), Max(row.max, v), row.sum + v, row.cnt + 1)];
        } else {
          t := t[key := Agg(samples[metric], samples[metric], samples[metric], 1)];
        }
        forall k ensures Lookup(t, k) == Upserted(tier, width, p, samples.Keys - todo, k) {
          assert Lookup(before, k) == Upserted(tier, width, p, samples.Keys - (todo + {metric}), k) by {
            assert samples.Keys - (todo + {metric}) == samples.Keys - todo - {metric};
          }
        }
      }
      UpsertByLookup(tier, width, Push(server, ts, samples), t);
    }
  }

  lemma UpsertByLookup(t: Tier, width: int, p: Push, u: Tier)
    requires width > 0
    requires forall k :: Lookup(u, k) == Upserted(t, width, p, p.samples.Keys, k)
    ensures u == Upsert(t, width, p)
  {
    var v := Upsert(t, width, p);
    forall k ensures Lookup(u, k) == Lookup(v, k) {
      LookupAfterUpsert(t, width, p, k);
    }
    SameTier(u, v);
  }
}
