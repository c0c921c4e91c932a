/**
 Runs of the ingest guard (mother/api/ingest.go), the push limiter (mother/api/middleware.go)
 and the live window, watched by a reader who polls one metric with `since`.
 */
module Polling {
  import opened LiveWindow

  const MIN_PUSH_GAP := 2 * SECOND

  /**
   `arrived` lists every point ever accepted for the metric the reader watches;
   `held` is what the reader has assembled from its polls.
   */
  datatype World = World(
    now: int, window: int, lastAdmitted: map<int, int>, lastPush: map<int, int>, series: Series,
    server: int, metric: string, arrived: seq<Point>, held: seq<Point>)

  function LastPush(lastPush: map<int, int>, id: int): int {
    if id in lastPush then lastPush[id] else 0
  }

  /** The newest timestamp a reader holds, 0 when it holds nothing. */
  function Newest(held: seq<Point>): int {
    if held == [] then 0 else Last(held).ts
  }

  datatype Event =
    | Wait(nanos: nat)
    // A push: admitted by the limiter at once, stamped `delay` later.
    | Push(id: int, samples: map<string, real>, accepted: set<string>, delay: nat)
    // A push the limiter lets through and a bad metric name then fails: the slot is used up all the same.
    | Refused(id: int)
    | Read(id: int)
    | Resize(window: int)
    | Poll

  function Allowed(w: World, id: int): bool {
    id !in w.lastAdmitted || w.now - w.lastAdmitted[id] >= MIN_PUSH_GAP
  }

  ghost predicate Possible(w: World, e: Event) {
    e.Push? ==> e.accepted <= e.samples.Keys && Admits(Metrics(w.series, e.id), e.samples, e.accepted)
  }

  /** handleIngest for an admitted push: fold only when strictly newer, touch the row regardless. */
  function Ingest(w: World, id: int, samples: map<string, real>, accepted: set<string>): World
    requires accepted <= samples.Keys
  {
    var ts := Unix(w.now);
    var touched := w.(lastPush := w.lastPush[id := ts]);
    if ts > LastPush(w.lastPush, id) then
      touched.(series := Add(w.series, id, ts, samples, accepted, Cutoff(w.now, w.window)),
      arrived := if id == w.server && w.metric in accepted then w.arrived + [Point(ts, samples[w.metric])] else w.arrived)
    else touched
  }

  function Admitted(w: World, id: int, delay: nat): World {
    w.(lastAdmitted := w.lastAdmitted[id := w.now], now := w.now + delay)
  }

  function Evicted(w: World, id: int): World {
    w.(series := Evict(w.series, id, Cutoff(w.now, w.window)))
  }

  function Resized(w: World, window: int): World {
    w.(window := window, series := EvictAll(w.series, Cutoff(w.now, window)))
  }

  /** What SeriesSince answers a reader of this metric, after its eviction. */
  function Polled(w: World): World {
    w.(held := w.held + From(Held(w.series, w.server, w.metric), Newest(w.held) + 1))
  }

  function Step(w: World, e: Event): World
    requires e.Push? ==> e.accepted <= e.samples.Keys
  {
    match e
    case Wait(nanos) => w.(now := w.now + nanos)
    case Push(id, samples, accepted, delay) =>
      if Allowed(w, id) then Ingest(Admitted(w, id, delay), id, samples, accepted) else w
    case Refused(id) => if Allowed(w, id) then Admitted(w, id, 0) else w
    case Read(id) => Evicted(w, id)
    case Resize(window) => if window <= 0 then w else Resized(w, window)
    case Poll => Polled(Evicted(w, w.server))
  }

  /** Whatever becomes of it, a push let through takes the slot at that instant; one too soon changes nothing. */
  lemma SlotTaken(w: World, e: Event)
    requires Possible(w, e) && (e.Push? || e.Refused?)
    ensures !Allowed(w, e.id) ==> Step(w, e) == w
    ensures Allowed(w, e.id) ==> Step(w, e).lastAdmitted == w.lastAdmitted[e.id := w.now]
    ensures Allowed(w, e.id) && e.Refused? ==> Step(w, e).series == w.series && Step(w, e).lastPush == w.lastPush
  {
  }

  ghost predicate Runs(w: World, es: seq<Event>)
    decreases |es|
  {
    es != [] ==> Possible(w, es[0]) && Runs(Step(w, es[0]), es[1..])
  }

  ghost function Run(w: World, es: seq<Event>): World
    requires Runs(w, es)
    decreases |es|
  {
    if es == [] then w else Run(Step(w, es[0]), es[1..])
  }

  ghost predicate Fresh(w: World) {
    w.now >= 0 && w.window > 0 && w.lastAdmitted == map[] && w.lastPush == map[] && w.series == map[] &&
    w.arrived == [] && w.held == []
  }

  ghost predicate Stamped(points: seq<Point>, newest: int) {
    && StrictlyAscending(points)
    && forall p :: p in points ==> 0 < p.ts <= newest
  }

  ghost predicate ClockInv(lastPush: map<int, int>, now: int) {
    forall id :: 0 <= LastPush(lastPush, id) <= Unix(now)
  }

  ghost predicate BufferInv(series: Series, lastPush: map<int, int>) {
    forall id, m :: Stamped(Held(series, id, m), LastPush(lastPush, id))
  }

  /** What the reader holds arrived, and it has everything buffered that is not newer than its newest point. */
  ghost predicate ReaderInv(buffered: seq<Point>, newest: int, arrived: seq<Point>, held: seq<Point>) {
    && Stamped(arrived, newest) && Stamped(held, newest)
    && (forall p :: p in held ==> p in arrived)
    && (forall p :: p in buffered ==> p in arrived)
    && (forall p :: p in buffered && p.ts <= Newest(held) ==> p in held)
  }

  ghost predicate Inv(w: World) {
    && w.window > 0
    && ClockInv(w.lastPush, w.now)
    && BufferInv(w.series, w.lastPush)
    && ReaderInv(Held(w.series, w.server, w.metric), LastPush(w.lastPush, w.server), w.arrived, w.held)
  }

  /** q is p, or p without everything before some instant. */
  ghost predicate CutOf(p: seq<Point>, q: seq<Point>) {
    q == p || exists t :: q == From(p, t)
  }

  lemma UnixMonotone(a: int, b: int)
    requires a <= b
    ensures Unix(a) <= Unix(b)
  {
  }

  lemma StampedAfterCut(points: seq<Point>, t: int, newest: int)
    requires Stamped(points, newest)
    ensures Stamped(From(points, t), newest)
    ensures forall p :: p in From(points, t) <==> p in points && p.ts >= t
  {
    var k := SuffixFrom(points, t);
  }

  /** Reading, evicting and resizing only ever drop points. */
  lemma CutKeepsInv(w: World, series: Series)
    requires Inv(w)
    requires forall id, m :: CutOf(Held(w.series, id, m), Held(series, id, m))
    ensures BufferInv(series, w.lastPush)
    ensures ReaderInv(Held(series, w.server, w.metric), LastPush(w.lastPush, w.server), w.arrived, w.held)
  {
    forall id, m
      ensures Stamped(Held(series, id, m), LastPush(w.lastPush, id))
      ensures forall p :: p in Held(series, id, m) ==> p in Held(w.series, id, m)
    {
      assert CutOf(Held(w.series, id, m), Held(series, id, m));
      if Held(series, id, m) != Held(w.series, id, m) {
        var t :| Held(series, id, m) == From(Held(w.series, id, m), t);
        StampedAfterCut(Held(w.series, id, m), t, LastPush(w.lastPush, id));
      }
    }
  }

  lemma EvictCuts(s: Series, id: int, cutoff: int)
    ensures forall k, m :: CutOf(Held(s, k, m), Held(Evict(s, id, cutoff), k, m))
  {
    forall k, m ensures CutOf(Held(s, k, m), Held(Evict(s, id, cutoff), k, m)) {
      HeldAfterEvict(s, id, cutoff, k, m);
    }
  }

  lemma EvictAllCuts(s: Series, cutoff: int)
    ensures forall k, m :: CutOf(Held(s, k, m), Held(EvictAll(s, cutoff), k, m))
  {
    forall k, m ensures CutOf(Held(s, k, m), Held(EvictAll(s, cutoff), k, m)) {
      HeldAfterEvictAll(s, cutoff, k, m);
    }
  }

  lemma StampedAppend(points: seq<Point>, newest: int, p: Point)
    requires Stamped(points, newest) && newest < p.ts && 0 < p.ts
    ensures Stamped(points + [p], p.ts)
  {
  }

  /** A push strictly newer than the row's last one, before the eviction that follows it. */
  function Landed(w: World, id: int, samples: map<string, real>, accepted: set<string>): World
    requires accepted <= samples.Keys
  {
    var ts := Unix(w.now);
    w.(lastPush := w.lastPush[id := ts], series := Loaded(w.series, id, ts, samples, accepted),
    arrived := if id == w.server && w.metric in accepted then w.arrived + [Point(ts, samples[w.metric])] else w.arrived)
  }

  lemma LandedKeepsBuffers(s: Series, lastPush: map<int, int>, id: int, ts: int, samples: map<string, real>, accepted: set<string>)
    requires BufferInv(s, lastPush) && accepted <= samples.Keys && ts > LastPush(lastPush, id) && ts > 0
    ensures BufferInv(Loaded(s, id, ts, samples, accepted), lastPush[id := ts])
  {
    forall k, m ensures Stamped(Held(Loaded(s, id, ts, samples, accepted), k, m), LastPush(lastPush[id := ts], k)) {
      HeldAfterAppend(s, id, ts, samples, accepted, k, m);
      assert Stamped(Held(s, k, m), LastPush(lastPush, k));
      if k == id && m in accepted {
        StampedAppend(Held(s, k, m), LastPush(lastPush, k), Point(ts, samples[m]));
      }
    }
  }

  lemma TouchKeepsClock(lastPush: map<int, int>, id: int, now: int)
    requires ClockInv(lastPush, now)
    ensures ClockInv(lastPush[id := Unix(now)], now)
  {
    var touched := lastPush[id := Unix(now)];
    forall k ensures 0 <= LastPush(touched, k) <= Unix(now) {
      assert 0 <= LastPush(lastPush, k) <= Unix(now);
    }
  }

  lemma ArrivalKeepsReader(buffered: seq<Point>, newest: int, arrived: seq<Point>, held: seq<Point>, p: Point)
    requires ReaderInv(buffered, newest, arrived, held) && newest < p.ts && 0 < p.ts
    ensures ReaderInv(buffered + [p], p.ts, arrived + [p], held)
  {
    StampedAppend(arrived, newest, p);
    assert held != [] ==> Last(held) in held;
  }

  lemma LandedKeepsInv(w: World, id: int, samples: map<string, real>, accepted: set<string>)
    requires Inv(w) && accepted <= samples.Keys && Unix(w.now) > LastPush(w.lastPush, id)
    ensures Inv(Landed(w, id, samples, accepted))
  {
    var ts := Unix(w.now);
    TouchKeepsClock(w.lastPush, id, w.now);
    assert 0 <= LastPush(w.lastPush, id);
    LandedKeepsBuffers(w.series, w.lastPush, id, ts, samples, accepted);
    HeldAfterAppend(w.series, id, ts, samples, accepted, w.server, w.metric);
    var buffered := Held(w.series, w.server, w.metric);
    assert buffered + [] == buffered;
    if id == w.server && w.metric in accepted {
      ArrivalKeepsReader(buffered, LastPush(w.lastPush, id), w.arrived, w.held, Point(ts, samples[w.metric]));
    }
  }

  lemma IngestKeepsInv(w: World, id: int, samples: map<string, real>, accepted: set<string>)
    requires Inv(w) && accepted <= samples.Keys
    ensures Inv(Ingest(w, id, samples, accepted))
  {
    var ts := Unix(w.now);
    TouchKeepsClock(w.lastPush, id, w.now);
    if ts <= LastPush(w.lastPush, id) {
      assert forall k :: LastPush(w.lastPush[id := ts], k) == LastPush(w.lastPush, k);
    } else {
      LandedKeepsInv(w, id, samples, accepted);
      var landed := Landed(w, id, samples, accepted);
      if samples == map[] {
        LoadedNothing(w.series, id, ts, samples, accepted);
        CutKeepsInv(landed, w.series);
      } else {
        EvictCuts(landed.series, id, Cutoff(w.now, w.window));
        CutKeepsInv(landed, Evict(landed.series, id, Cutoff(w.now, w.window)));
      }
    }
  }

  lemma LoadedNothing(s: Series, id: int, ts: int, samples: map<string, real>, accepted: set<string>)
    requires accepted <= samples.Keys && samples == map[]
    ensures forall k, m :: Held(Loaded(s, id, ts, samples, accepted), k, m) == Held(s, k, m)
  {
    forall k, m ensures Held(Loaded(s, id, ts, samples, accepted), k, m) == Held(s, k, m) {
      HeldAfterAppend(s, id, ts, samples, accepted, k, m);
    }
  }

  lemma NewestIsMaximum(held: seq<Point>)
    requires StrictlyAscending(held)
    ensures forall p :: p in held ==> p.ts <= Newest(held)
  {
  }

  /** A reader takes everything buffered that is newer than its newest point. */
  lemma AnswerCatchesUp(buffered: seq<Point>, newest: int, arrived: seq<Point>, held: seq<Point>)
    requires ReaderInv(buffered, newest, arrived, held) && Stamped(buffered, newest)
    ensures ReaderInv(buffered, newest, arrived, held + From(buffered, Newest(held) + 1))
    ensures forall p :: p in buffered ==> p in held + From(buffered, Newest(held) + 1)
  {
    var answer := From(buffered, Newest(held) + 1);
    StampedAfterCut(buffered, Newest(held) + 1, newest);
    NewestIsMaximum(held);
    assert Stamped(held + answer, newest);
  }

  lemma EvictedKeepsInv(w: World, id: int)
    requires Inv(w)
    ensures Inv(Evicted(w, id))
  {
    EvictCuts(w.series, id, Cutoff(w.now, w.window));
    CutKeepsInv(w, Evict(w.series, id, Cutoff(w.now, w.window)));
  }

  lemma ResizedKeepsInv(w: World, window: int)
    requires Inv(w) && window > 0
    ensures Inv(Resized(w, window))
  {
    EvictAllCuts(w.series, Cutoff(w.now, window));
    CutKeepsInv(w, EvictAll(w.series, Cutoff(w.now, window)));
  }

  lemma AdmittedKeepsInv(w: World, id: int, delay: nat)
    requires Inv(w)
    ensures Inv(Admitted(w, id, delay))
  {
    UnixMonotone(w.now, w.now + delay);
  }

  lemma PolledKeepsInv(w: World)
    requires Inv(w)
    ensures Inv(Polled(w))
    ensures forall p :: p in Held(w.series, w.server, w.metric) ==> p in Polled(w).held
  {
    AnswerCatchesUp(Held(w.series, w.server, w.metric), LastPush(w.lastPush, w.server), w.arrived, w.held);
  }

  lemma StepKeepsInv(w: World, e: Event)
    requires Inv(w) && Possible(w, e)
    ensures Inv(Step(w, e))
  {
    match e
    case Wait(nanos) => UnixMonotone(w.now, w.now + nanos);
    case Push(id, samples, accepted, delay) =>
      if Allowed(w, id) {
        AdmittedKeepsInv(w, id, delay);
        IngestKeepsInv(Admitted(w, id, delay), id, samples, accepted);
      }
    case Refused(id) => AdmittedKeepsInv(w, id, 0);
    case Read(id) => EvictedKeepsInv(w, id);
    case Resize(window) => if window > 0 { ResizedKeepsInv(w, window); }
    case Poll =>
      EvictedKeepsInv(w, w.server);
      PolledKeepsInv(Evicted(w, w.server));
  }

  lemma {:induction false} RunKeepsInv(w: World, es: seq<Event>)
    requires Inv(w) && Runs(w, es)
    ensures Inv(Run(w, es))
    decreases |es|
  {
    if es != [] {
      StepKeepsInv(w, es[0]);
      RunKeepsInv(Step(w, es[0]), es[1..]);
    }
  }

  /**
   Exactly once: after any run without Forget, a poll leaves the reader with a strictly ascending
   list, made only of points that arrived, that holds every point then buffered.
   */
  lemma ExactlyOnce(w: World, es: seq<Event>)
    requires Fresh(w) && Runs(w, es)
    ensures var polled := Step(Run(w, es), Poll);
            && StrictlyAscending(polled.held)
            && (forall p :: p in polled.held ==> p in polled.arrived)
            && (forall p :: p in Held(polled.series, polled.server, polled.metric) ==> p in polled.held)
  {
    RunKeepsInv(w, es);
    var end := Run(w, es);
    EvictedKeepsInv(end, end.server);
    PolledKeepsInv(Evicted(end, end.server));
  }

  // ----- Pushes that overlap -----

  /** The live tail after a handler that had read `seen` as the row's last push, whatever has landed since. */
  function Overtaken(w: World, id: int, samples: map<string, real>, accepted: set<string>, seen: int): Series
    requires accepted <= samples.Keys
  {
    if Unix(w.now) > seen then Add(w.series, id, Unix(w.now), samples, accepted, Cutoff(w.now, w.window)) else w.series
  }

  /** No point of this very second is held of a metric the push brings. */
  ghost predicate FreshSecond(w: World, id: int, accepted: set<string>) {
    forall m, p :: m in accepted && p in Held(w.series, id, m) ==> p.ts != Unix(w.now)
  }

  lemma NewSecondExactly(points: seq<Point>, newest: int, p: Point, cutoff: int)
    requires Stamped(points, newest) && newest <= p.ts && cutoff <= p.ts
    ensures StrictlyAscending(From(points + [p], cutoff)) <==> forall q :: q in points ==> q.ts != p.ts
  {
    var kept := From(points, cutoff);
    StampedAfterCut(points, cutoff, newest);
    assert (points + [p])[..|points|] == points;
    assert From(points + [p], cutoff) == kept + [p];
    if q :| q in points && q.ts == p.ts {
      var k :| 0 <= k < |kept| && kept[k] == q;
      assert (kept + [p])[k].ts == (kept + [p])[|kept|].ts;
    }
  }

  lemma OvertakenMetric(w: World, id: int, samples: map<string, real>, accepted: set<string>, m: string)
    requires Inv(w) && accepted <= samples.Keys && samples != map[]
    ensures var series := Add(w.series, id, Unix(w.now), samples, accepted, Cutoff(w.now, w.window));
            StrictlyAscending(Held(series, id, m)) <==>
            (m in accepted ==> forall p :: p in Held(w.series, id, m) ==> p.ts != Unix(w.now))
  {
    var ts, cutoff, points := Unix(w.now), Cutoff(w.now, w.window), Held(w.series, id, m);
    UnixMonotone(w.now - w.window, w.now);
    HeldAfterAppend(w.series, id, ts, samples, accepted, id, m);
    HeldAfterEvict(Loaded(w.series, id, ts, samples, accepted), id, cutoff, id, m);
    assert Stamped(points, LastPush(w.lastPush, id)) && LastPush(w.lastPush, id) <= ts;
    if m in accepted {
      NewSecondExactly(points, LastPush(w.lastPush, id), Point(ts, samples[m]), cutoff);
    } else {
      assert points + [] == points;
      StampedAfterCut(points, cutoff, ts);
    }
  }

  /** A push that another of the same server overtook keeps every list ascending exactly when it brings a new second. */
  lemma OvertakenExactly(w: World, id: int, samples: map<string, real>, accepted: set<string>, seen: int)
    requires Inv(w) && accepted <= samples.Keys
    ensures (forall m :: StrictlyAscending(Held(Overtaken(w, id, samples, accepted, seen), id, m))) <==>
            Unix(w.now) <= seen || FreshSecond(w, id, accepted)
  {
    if Unix(w.now) <= seen || samples == map[] {
      forall m ensures StrictlyAscending(Held(w.series, id, m)) {
        assert Stamped(Held(w.series, id, m), LastPush(w.lastPush, id));
      }
    } else {
      forall m
        ensures StrictlyAscending(Held(Overtaken(w, id, samples, accepted, seen), id, m)) <==>
                (m in accepted ==> forall p :: p in Held(w.series, id, m) ==> p.ts != Unix(w.now))
      {
        OvertakenMetric(w, id, samples, accepted, m);
      }
    }
  }

  // ----- Memory -----

  /** Every push is stamped at most so many nanoseconds after the limiter admitted it. */
  ghost predicate Delayed(es: seq<Event>, nanos: nat) {
    forall i :: 0 <= i < |es| ==> es[i].Push? ==> es[i].delay <= nanos
  }

  /** What late stamps can take off the gap between two points: no more than the gap. */
  function Lost(slack: nat): nat { if slack < 2 then slack else 2 }

  /**
   A point is stamped up to `slack` seconds after its admission, so neighbours may be closer than the gap; but only
   once in a list is anything lost, and all points but the last are behind the last admission.
   */
  ghost predicate Spaced(points: seq<Point>, admitted: int, slack: nat) {
    && (forall i, j :: 0 <= i < j < |points| ==> points[i].ts + 2 * (j - i) - Lost(slack) <= points[j].ts)
    && (forall i :: 0 <= i < |points| - 1 ==> points[i].ts + 2 * (|points| - 2 - i) <= admitted)
    && (forall i :: 0 <= i < |points| ==> points[i].ts + 2 * (|points| - 1 - i) <= admitted + slack)
  }

  ghost predicate SpacedSeries(s: Series, lastAdmitted: map<int, int>, slack: nat) {
    forall id, m :: Held(s, id, m) != [] ==>
      id in lastAdmitted && Spaced(Held(s, id, m), Unix(lastAdmitted[id]), slack)
  }

  lemma SpacedAfterCut(points: seq<Point>, t: int, admitted: int, slack: nat)
    requires Spaced(points, admitted, slack)
    ensures Spaced(From(points, t), admitted, slack)
  {
    var k := SuffixFrom(points, t);
    var kept := From(points, t);
    assert forall i :: 0 <= i < |kept| ==> kept[i] == points[k + i];
  }

  lemma SpacedAppend(points: seq<Point>, before: int, admitted: int, slack: nat, p: Point)
    requires Spaced(points, before, slack) && before + 2 <= admitted <= p.ts <= admitted + slack
    requires forall q :: q in points ==> q.ts <= admitted
    ensures Spaced(points + [p], admitted, slack)
  {
    var grown, n := points + [p], |points|;
    forall i | 0 <= i < n
      ensures grown[i].ts + 2 * (n - 1 - i) <= admitted
      ensures grown[i].ts + 2 * (n - i) <= admitted + slack
    {
      assert points[i] in points;
    }
  }

  lemma CutKeepsSpacing(s: Series, cut: Series, lastAdmitted: map<int, int>, slack: nat)
    requires SpacedSeries(s, lastAdmitted, slack)
    requires forall id, m :: CutOf(Held(s, id, m), Held(cut, id, m))
    ensures SpacedSeries(cut, lastAdmitted, slack)
  {
    forall id, m | Held(cut, id, m) != []
      ensures id in lastAdmitted && Spaced(Held(cut, id, m), Unix(lastAdmitted[id]), slack)
    {
      assert CutOf(Held(s, id, m), Held(cut, id, m));
      if Held(cut, id, m) != Held(s, id, m) {
        var t :| Held(cut, id, m) == From(Held(s, id, m), t);
        assert Held(s, id, m) != [];
        SpacedAfterCut(Held(s, id, m), t, Unix(lastAdmitted[id]), slack);
      }
    }
  }

  /** Using up a slot moves the last admission forward only. */
  lemma SlotKeepsSpacing(w: World, id: int, slack: nat)
    requires SpacedSeries(w.series, w.lastAdmitted, slack) && Allowed(w, id)
    ensures SpacedSeries(w.series, w.lastAdmitted[id := w.now], slack)
  {
    if id in w.lastAdmitted { UnixMonotone(w.lastAdmitted[id], w.now); }
  }

  lemma AddKeepsSpacing(s: Series, lastAdmitted: map<int, int>, slack: nat, id: int, at: int, ts: int,
                        samples: map<string, real>, accepted: set<string>, cutoff: int)
    requires SpacedSeries(s, lastAdmitted, slack) && accepted <= samples.Keys && Unix(at) <= ts <= Unix(at) + slack
    requires id in lastAdmitted ==> Unix(lastAdmitted[id]) + 2 <= Unix(at)
    requires forall m, p :: p in Held(s, id, m) ==> p.ts <= Unix(at)
    ensures SpacedSeries(Add(s, id, ts, samples, accepted, cutoff), lastAdmitted[id := at], slack)
  {
    var grown, admitted := Loaded(s, id, ts, samples, accepted), lastAdmitted[id := at];
    forall k, m | Held(grown, k, m) != [] ensures k in admitted && Spaced(Held(grown, k, m), Unix(admitted[k]), slack) {
      HeldAfterAppend(s, id, ts, samples, accepted, k, m);
      if k == id && m in accepted && Held(s, k, m) != [] {
        SpacedAppend(Held(s, k, m), Unix(lastAdmitted[k]), Unix(at), slack, Point(ts, samples[m]));
      }
    }
    SpacedUntouched(s, lastAdmitted, slack, id, at);
    EvictCuts(grown, id, cutoff);
    CutKeepsSpacing(grown, Evict(grown, id, cutoff), admitted, slack);
  }

  lemma SpacedUntouched(s: Series, lastAdmitted: map<int, int>, slack: nat, id: int, at: int)
    requires SpacedSeries(s, lastAdmitted, slack) && (id in lastAdmitted ==> Unix(lastAdmitted[id]) <= Unix(at))
    ensures SpacedSeries(s, lastAdmitted[id := at], slack)
  {
  }

  /** What the limiter's gap means in whole seconds. */
  lemma GapInSeconds(before: int, after: int)
    requires after - before >= MIN_PUSH_GAP
    ensures Unix(before) + 2 <= Unix(after)
  {
  }

  lemma DelayInSeconds(now: int, delay: nat, slack: nat)
    requires delay <= slack * SECOND
    ensures Unix(now) <= Unix(now + delay) <= Unix(now) + slack
  {
    UnixMonotone(now, now + delay);
    UnixMonotone(now + delay, now + slack * SECOND);
    assert Unix(now + slack * SECOND) == Unix(now) + slack;
  }

  lemma PushKeepsSpacing(w: World, id: int, samples: map<string, real>, accepted: set<string>, delay: nat, slack: nat)
    requires Inv(w) && SpacedSeries(w.series, w.lastAdmitted, slack) && delay <= slack * SECOND
    requires accepted <= samples.Keys && Allowed(w, id)
    ensures var v := Ingest(Admitted(w, id, delay), id, samples, accepted);
            SpacedSeries(v.series, v.lastAdmitted, slack)
  {
    var v := Admitted(w, id, delay);
    DelayInSeconds(w.now, delay, slack);
    SlotKeepsSpacing(w, id, slack);
    if id in w.lastAdmitted { GapInSeconds(w.lastAdmitted[id], w.now); }
    forall m, p | p in Held(w.series, id, m) ensures p.ts <= Unix(w.now) {
      assert Stamped(Held(w.series, id, m), LastPush(w.lastPush, id));
    }
    AddKeepsSpacing(w.series, w.lastAdmitted, slack, id, w.now, Unix(v.now), samples, accepted, Cutoff(v.now, v.window));
  }

  lemma StepKeepsSpacing(w: World, e: Event, slack: nat)
    requires Inv(w) && SpacedSeries(w.series, w.lastAdmitted, slack) && Possible(w, e)
    requires e.Push? ==> e.delay <= slack * SECOND
    ensures SpacedSeries(Step(w, e).series, Step(w, e).lastAdmitted, slack)
  {
    match e
    case Wait(_) =>
    case Push(id, samples, accepted, delay) =>
      if Allowed(w, id) { PushKeepsSpacing(w, id, samples, accepted, delay, slack); }
    case Refused(id) => if Allowed(w, id) { SlotKeepsSpacing(w, id, slack); }
    case Read(id) =>
      EvictCuts(w.series, id, Cutoff(w.now, w.window));
      CutKeepsSpacing(w.series, Evict(w.series, id, Cutoff(w.now, w.window)), w.lastAdmitted, slack);
    case Resize(window) =>
      EvictAllCuts(w.series, Cutoff(w.now, window));
      CutKeepsSpacing(w.series, EvictAll(w.series, Cutoff(w.now, window)), w.lastAdmitted, slack);
    case Poll =>
      EvictCuts(w.series, w.server, Cutoff(w.now, w.window));
      CutKeepsSpacing(w.series, Evict(w.series, w.server, Cutoff(w.now, w.window)), w.lastAdmitted, slack);
  }

  lemma {:induction false} RunKeepsSpacing(w: World, es: seq<Event>, slack: nat)
    requires Inv(w) && SpacedSeries(w.series, w.lastAdmitted, slack) && Runs(w, es) && Delayed(es, slack * SECOND)
    ensures SpacedSeries(Run(w, es).series, Run(w, es).lastAdmitted, slack)
    decreases |es|
  {
    if es != [] {
      StepKeepsInv(w, es[0]);
      StepKeepsSpacing(w, es[0], slack);
      RunKeepsSpacing(Step(w, es[0]), es[1..], slack);
    }
  }

  lemma {:induction false} SomeSlack(es: seq<Event>) returns (slack: nat)
    ensures Delayed(es, slack * SECOND)
  {
    slack := 0;
    if es != [] {
      var rest := SomeSlack(es[1..]);
      slack := if es[0].Push? && es[0].delay > rest then es[0].delay else rest;
      assert rest * SECOND <= slack * SECOND && slack <= slack * SECOND;
    }
  }

  /** How many points so spaced fit a window of `seconds`, and how many strictly ascending ones. */
  lemma WindowBound(points: seq<Point>, now: int, seconds: nat, admitted: int, slack: nat)
    requires Stamped(points, Unix(now))
    ensures |From(points, Cutoff(now, seconds * SECOND))| <= seconds + 1
    ensures Spaced(points, admitted, slack) ==>
              |From(points, Cutoff(now, seconds * SECOND))| <= (seconds + Lost(slack)) / 2 + 1
  {
    var cutoff := Cutoff(now, seconds * SECOND);
    assert cutoff == Unix(now) - seconds;
    var kept := From(points, cutoff);
    StampedAfterCut(points, cutoff, Unix(now));
    if kept != [] {
      AscendingSpan(kept, |kept| - 1);
      assert kept[0] in kept && Last(kept) in kept;
      if Spaced(points, admitted, slack) {
        SpacedAfterCut(points, cutoff, admitted, slack);
      }
    }
  }

  lemma {:induction false} AscendingSpan(points: seq<Point>, k: nat)
    requires StrictlyAscending(points) && k < |points|
    ensures points[0].ts + k <= points[k].ts
  {
    if k > 0 { AscendingSpan(points, k - 1); }
  }

  /** After a run whose stamps are at most `slack` seconds late. */
  lemma SlackBound(w: World, es: seq<Event>, id: int, m: string, seconds: nat, slack: nat)
    requires Fresh(w) && Runs(w, es) && Delayed(es, slack * SECOND) && Run(w, es).window == seconds * SECOND
    ensures |Held(Step(Run(w, es), Read(id)).series, id, m)| <= (seconds + Lost(slack)) / 2 + 1
  {
    RunKeepsInv(w, es);
    RunKeepsSpacing(w, es, slack);
    var end := Run(w, es);
    HeldAfterEvict(end.series, id, Cutoff(end.now, end.window), id, m);
    var points := Held(end.series, id, m);
    assert Stamped(points, Unix(end.now));
    if points != [] {
      WindowBound(points, end.now, seconds, Unix(end.lastAdmitted[id]), slack);
    }
  }

  /** The memory bound, after any run and an operation that evicts the server in question. */
  lemma MemoryBound(w: World, es: seq<Event>, id: int, m: string, seconds: nat)
    requires Fresh(w) && Runs(w, es) && Run(w, es).window == seconds * SECOND
    ensures |Held(Step(Run(w, es), Read(id)).series, id, m)| <= seconds / 2 + 2
  {
    var slack := SomeSlack(es);
    SlackBound(w, es, id, m, seconds, slack);
  }

  // ----- Both bounds are met -----

  lemma {:induction false} RunConcat(w: World, es: seq<Event>, fs: seq<Event>)
    requires Runs(w, es) && Runs(Run(w, es), fs)
    ensures Runs(w, es + fs) && Run(w, es + fs) == Run(Run(w, es), fs)
    decreases |es|
  {
    if es == [] {
      assert es + fs == fs;
    } else {
      assert (es + fs)[1..] == es[1..] + fs;
      RunConcat(Step(w, es[0]), es[1..], fs);
    }
  }

  lemma OneEvent(w: World, e: Event)
    requires Possible(w, e)
    ensures Runs(w, [e]) && Run(w, [e]) == Step(w, e)
  {
    assert [e][1..] == [];
  }

  /** A server that reports one metric; what is held of it starts at `first` at the earliest. */
  ghost predicate Stretch(w: World, id: int, m: string, first: int) {
    && Metrics(w.series, id).Keys <= {m}
    && forall p :: p in Held(w.series, id, m) ==> p.ts >= first
  }

  /** A nanosecond before the second `s` begins. */
  function Just(s: int): int { s * SECOND - 1 }

  /** The last slot was taken just before `admitted`, no more than the gap ago; the last stamp is `pushed`. */
  ghost predicate Times(w: World, id: int, seconds: int, admitted: int, pushed: int) {
    && w.window == seconds * SECOND && LastPush(w.lastPush, id) == pushed
    && id in w.lastAdmitted && w.lastAdmitted[id] == Just(admitted) <= w.now <= Just(admitted + 2)
  }

  function Sample(m: string): (samples: map<string, real>)
    ensures samples.Keys == {m} && samples[m] == 0.0
  {
    map[m := 0.0]
  }

  function Report(id: int, m: string, delay: nat): Event {
    Push(id, Sample(m), {m}, delay)
  }

  lemma ReportIsPossible(w: World, id: int, m: string, delay: nat, first: int)
    requires Stretch(w, id, m, first)
    ensures Possible(w, Report(id, m, delay))
  {
    var held, samples := Metrics(w.series, id), Sample(m);
    if m in held {
      assert held.Keys == {m} && {m} - held.Keys == {};
    } else {
      assert held.Keys == {} && {m} - held.Keys == {m};
    }
    assert |held| == |held.Keys|;
  }

  lemma NothingExpires(points: seq<Point>, cutoff: int)
    requires forall p :: p in points ==> p.ts >= cutoff
    ensures From(points, cutoff) == points
  {
    assert forall i :: 0 <= i < |points| ==> points[i] in points;
    FromIsSuffix(points, cutoff, 0);
  }

  lemma ReportGrows(s: Series, id: int, m: string, ts: int, first: int, cutoff: int, t: Series)
    requires Metrics(s, id).Keys <= {m} && (forall p :: p in Held(s, id, m) ==> p.ts >= first) && cutoff <= first <= ts
    requires t == Add(s, id, ts, Sample(m), {m}, cutoff)
    ensures Metrics(t, id).Keys <= {m} && Held(t, id, m) == Held(s, id, m) + [Point(ts, 0.0)]
  {
    var samples := Sample(m);
    HeldAfterAppend(s, id, ts, samples, {m}, id, m);
    var grown := Loaded(s, id, ts, samples, {m});
    HeldAfterEvict(grown, id, cutoff, id, m);
    NothingExpires(Held(grown, id, m), cutoff);
    assert grown[id].Keys <= {m};
  }

  lemma WindowInSeconds(now: int, seconds: int)
    ensures Cutoff(now, seconds * SECOND) == Unix(now) - seconds
  {
  }

  lemma ReportSteps(w: World, id: int, m: string, delay: nat)
    requires Allowed(w, id)
    ensures Step(w, Report(id, m, delay)) == Ingest(Admitted(w, id, delay), id, Sample(m), {m})
  {
  }

  lemma IngestFields(v: World, id: int, samples: map<string, real>, accepted: set<string>, u: World)
    requires accepted <= samples.Keys && Unix(v.now) > LastPush(v.lastPush, id) && u == Ingest(v, id, samples, accepted)
    ensures u.now == v.now && u.window == v.window && u.lastAdmitted == v.lastAdmitted
    ensures LastPush(u.lastPush, id) == Unix(v.now)
    ensures u.series == Add(v.series, id, Unix(v.now), samples, accepted, Cutoff(v.now, v.window))
  {
  }

  /** Appending keeps a stretch a stretch. */
  lemma StretchGrows(v: World, id: int, m: string, ts: int, first: int, u: World)
    requires Stretch(v, id, m, first) && first <= ts && Metrics(u.series, id).Keys <= {m}
    requires Held(u.series, id, m) == Held(v.series, id, m) + [Point(ts, 0.0)]
    ensures Stretch(u, id, m, first) && |Held(u.series, id, m)| == |Held(v.series, id, m)| + 1
  {
  }

  /** An admitted push of that server, stamped `ts`, lands behind what is held and evicts nothing. */
  lemma ReportLands(w: World, id: int, m: string, at: int, delay: nat, ts: int, seconds: nat, first: int, u: World)
    requires Stretch(w, id, m, first) && w.now == Just(at) && w.window == seconds * SECOND && Allowed(w, id)
    requires delay <= MIN_PUSH_GAP && ts == Unix(Just(at) + delay)
    requires LastPush(w.lastPush, id) < ts && ts - seconds <= first <= ts
    requires u == Step(w, Report(id, m, delay))
    ensures Possible(w, Report(id, m, delay))
    ensures Stretch(u, id, m, first) && Times(u, id, seconds, at, ts) && u.now == Just(at) + delay
    ensures |Held(u.series, id, m)| == |Held(w.series, id, m)| + 1
  {
    ReportIsPossible(w, id, m, delay, first);
    ReportSteps(w, id, m, delay);
    var v := Late(w, id, delay);
    WindowInSeconds(v.now, seconds);
    IngestFields(v, id, Sample(m), {m}, u);
    ReportGrows(v.series, id, m, Unix(v.now), first, Cutoff(v.now, v.window), u.series);
    StretchGrows(v, id, m, Unix(v.now), first, u);
  }

  /** The slot taken and the delay over. */
  lemma Late(w: World, id: int, delay: nat) returns (v: World)
    ensures v == Admitted(w, id, delay) && v.now == w.now + delay
    ensures v.window == w.window && v.series == w.series && v.lastPush == w.lastPush
    ensures v.lastAdmitted == w.lastAdmitted[id := w.now]
  {
    v := Admitted(w, id, delay);
  }

  lemma WaitTicks(w: World, id: int, seconds: int, admitted: int, pushed: int, wait: Event, v: World)
    requires Times(w, id, seconds, admitted, pushed)
    requires wait == Wait(Just(admitted + 2) - w.now) && v == Step(w, wait)
    ensures v.now == Just(admitted + 2) && v.window == w.window && v.series == w.series && v.lastPush == w.lastPush
    ensures Allowed(v, id)
  {
  }

  /** The next push, a gap after the last one was admitted. */
  lemma NextStep(w: World, id: int, m: string, admitted: int, pushed: int, delay: nat, ts: int, seconds: nat, first: int,
                 wait: Event, v: World, u: World)
    requires Stretch(w, id, m, first) && Times(w, id, seconds, admitted, pushed)
    requires delay <= MIN_PUSH_GAP && ts == Unix(Just(admitted + 2) + delay)
    requires pushed < ts && ts - seconds <= first <= ts
    requires wait == Wait(Just(admitted + 2) - w.now) && v == Step(w, wait) && u == Step(v, Report(id, m, delay))
    ensures Possible(v, Report(id, m, delay))
    ensures Stretch(u, id, m, first) && Times(u, id, seconds, admitted + 2, ts) && u.now == Just(admitted + 2) + delay
    ensures |Held(u.series, id, m)| == |Held(w.series, id, m)| + 1
  {
    WaitTicks(w, id, seconds, admitted, pushed, wait, v);
    ReportLands(v, id, m, admitted + 2, delay, ts, seconds, first, u);
  }

  lemma NextRound(w: World, id: int, m: string, admitted: int, pushed: int, delay: nat, ts: int, seconds: nat, first: int)
    returns (es: seq<Event>, u: World)
    requires Stretch(w, id, m, first) && Times(w, id, seconds, admitted, pushed)
    requires delay <= MIN_PUSH_GAP && ts == Unix(Just(admitted + 2) + delay)
    requires pushed < ts && ts - seconds <= first <= ts
    ensures Delayed(es, delay) && Runs(w, es) && u == Run(w, es)
    ensures Stretch(u, id, m, first) && Times(u, id, seconds, admitted + 2, ts) && u.now == Just(admitted + 2) + delay
    ensures |Held(u.series, id, m)| == |Held(w.series, id, m)| + 1
  {
    var wait, push := Wait(Just(admitted + 2) - w.now), Report(id, m, delay);
    var v := Step(w, wait);
    u := Step(v, push);
    NextStep(w, id, m, admitted, pushed, delay, ts, seconds, first, wait, v, u);
    TwoEvents(w, wait, push);
    es := [wait, push];
  }

  lemma TwoEvents(w: World, e: Event, f: Event)
    requires Possible(w, e) && Possible(Step(w, e), f)
    ensures Runs(w, [e, f]) && Run(w, [e, f]) == Step(Step(w, e), f)
  {
    assert [e, f][1..] == [f];
    OneEvent(Step(w, e), f);
  }

  /** Pushes every two seconds, stamped at once, for as long as the window lasts. */
  lemma {:induction false} Steady(w: World, id: int, m: string, admitted: int, pushed: int, seconds: nat, first: int, n: nat)
    returns (es: seq<Event>, end: World)
    requires Stretch(w, id, m, first) && Times(w, id, seconds, admitted, pushed) && Unix(w.now) - seconds <= first
    requires pushed <= admitted && first <= admitted + 1 && admitted - 1 + 2 * n - seconds <= first
    ensures Delayed(es, 0) && Runs(w, es) && end == Run(w, es)
    ensures Stretch(end, id, m, first) && end.window == seconds * SECOND && Unix(end.now) - seconds <= first
    ensures |Held(end.series, id, m)| == |Held(w.series, id, m)| + n
    decreases n
  {
    if n == 0 {
      es, end := [], w;
    } else {
      var round, rest, u;
      round, u := NextRound(w, id, m, admitted, pushed, 0, admitted + 1, seconds, first);
      rest, end := Steady(u, id, m, admitted + 2, admitted + 1, seconds, first, n - 1);
      RunConcat(w, round, rest);
      es := round + rest;
    }
  }

  /** A clock just before a second, and nothing pushed yet. */
  function Beginning(id: int, m: string, seconds: nat, at: int): World {
    World(Just(at), seconds * SECOND, map[], map[], map[], id, m, [], [])
  }

  lemma ReadKeepsStretch(w: World, id: int, m: string, first: int)
    requires Stretch(w, id, m, first) && Cutoff(w.now, w.window) <= first
    ensures Held(Step(w, Read(id)).series, id, m) == Held(w.series, id, m)
  {
    HeldAfterEvict(w.series, id, Cutoff(w.now, w.window), id, m);
    NothingExpires(Held(w.series, id, m), Cutoff(w.now, w.window));
  }

  /** From a first stretch on, the window fills up. */
  lemma Sustained(w: World, es: seq<Event>, v: World, id: int, m: string, admitted: int, pushed: int,
                  seconds: nat, first: int, n: nat, late: nat) returns (all: seq<Event>)
    requires Runs(w, es) && v == Run(w, es) && Delayed(es, late)
    requires Stretch(v, id, m, first) && Times(v, id, seconds, admitted, pushed) && Unix(v.now) - seconds <= first
    requires pushed <= admitted && first <= admitted + 1 && admitted - 1 + 2 * n - seconds <= first
    ensures Runs(w, all) && Run(w, all).window == seconds * SECOND && Delayed(all, late)
    ensures |Held(Step(Run(w, all), Read(id)).series, id, m)| == |Held(v.series, id, m)| + n
  {
    var rest, end := Steady(v, id, m, admitted, pushed, seconds, first, n);
    RunConcat(w, es, rest);
    all := es + rest;
    WindowInSeconds(end.now, seconds);
    ReadKeepsStretch(end, id, m, first);
  }

  /** The first push. */
  lemma Begins(id: int, m: string, seconds: nat, at: int, delay: nat, ts: int) returns (w: World, es: seq<Event>, v: World)
    requires seconds > 0 && at > 0 && delay <= MIN_PUSH_GAP && 0 < ts == Unix(Just(at) + delay)
    ensures Fresh(w) && Runs(w, es) && v == Run(w, es) && Delayed(es, delay) && v.now == Just(at) + delay
    ensures Stretch(v, id, m, ts) && Times(v, id, seconds, at, ts) && |Held(v.series, id, m)| == 1
  {
    w := Beginning(id, m, seconds, at);
    var push := Report(id, m, delay);
    v := Step(w, push);
    ReportLands(w, id, m, at, delay, ts, seconds, ts, v);
    OneEvent(w, push);
    es := [push];
  }

  /** With stamps made as pushes are admitted, some run holds half the window's seconds and one point. */
  lemma PromptBoundMet(id: int, m: string, seconds: nat) returns (w: World, es: seq<Event>)
    requires seconds > 0
    ensures Fresh(w) && Runs(w, es) && Delayed(es, 0) && Run(w, es).window == seconds * SECOND
    ensures |Held(Step(Run(w, es), Read(id)).series, id, m)| == seconds / 2 + 1
  {
    var first, v;
    w, first, v := Begins(id, m, seconds, 3, 0, 2);
    es := Sustained(w, first, v, id, m, 3, 2, seconds, 2, seconds / 2, 0);
  }

  /** The longest delay of stamps that costs nothing, in nanoseconds. */
  function DelayLimit(seconds: nat): nat { if seconds % 2 == 0 then SECOND else 0 }

  /** A first push just later than that is enough for one point more. */
  lemma MemoryBoundMet(id: int, m: string, seconds: nat) returns (w: World, es: seq<Event>)
    requires seconds > 0
    ensures Fresh(w) && Runs(w, es) && Delayed(es, DelayLimit(seconds) + 1) && Run(w, es).window == seconds * SECOND
    ensures |Held(Step(Run(w, es), Read(id)).series, id, m)| == seconds / 2 + 2
  {
    if seconds % 2 == 0 {
      w, es := EvenBoundMet(id, m, seconds);
    } else {
      var first, v;
      w, first, v := Begins(id, m, seconds, 1, 1, 1);
      es := Sustained(w, first, v, id, m, 1, 1, seconds, 1, seconds / 2 + 1, 1);
    }
  }

  /** Stamps at 2, 3, 4, 6, 8, ... of pushes admitted just before 1, 3, 5, 7, 9, ... */
  lemma EvenBoundMet(id: int, m: string, seconds: nat) returns (w: World, es: seq<Event>)
    requires seconds > 0 && seconds % 2 == 0
    ensures Fresh(w) && Runs(w, es) && Delayed(es, SECOND + 1) && Run(w, es).window == seconds * SECOND
    ensures |Held(Step(Run(w, es), Read(id)).series, id, m)| == seconds / 2 + 2
  {
    var first, second, v, u;
    w, first, v := Begins(id, m, seconds, 1, SECOND + 1, 2);
    second, u := NextRound(v, id, m, 1, 2, 1, 3, seconds, 2);
    RunConcat(w, first, second);
    es := Sustained(w, first + second, u, id, m, 3, 3, seconds, 2, seconds / 2, SECOND + 1);
  }

  /** However runs go whose stamps are no later than this: half the window's seconds and one point. */
  ghost predicate HalfWindow(nanos: nat, seconds: nat) {
    forall w, es, id, m ::
      Fresh(w) && Runs(w, es) && Delayed(es, nanos) && Run(w, es).window == seconds * SECOND ==>
      |Held(Step(Run(w, es), Read(id)).series, id, m)| <= seconds / 2 + 1
  }

  /** Exactly how late stamps may be for that bound: a second if the window is an even number of them, else not at all. */
  lemma HalfWindowExactly(nanos: nat, seconds: nat)
    requires seconds > 0
    ensures HalfWindow(nanos, seconds) <==> nanos <= DelayLimit(seconds)
  {
    if nanos <= DelayLimit(seconds) {
      forall w, es, id, m |
        Fresh(w) && Runs(w, es) && Delayed(es, nanos) && Run(w, es).window == seconds * SECOND
        ensures |Held(Step(Run(w, es), Read(id)).series, id, m)| <= seconds / 2 + 1
      {
        var slack := if seconds % 2 == 0 then 1 else 0;
        SlackBound(w, es, id, m, seconds, slack);
      }
    } else {
      var w, es := MemoryBoundMet(0, "", seconds);
    }
  }
}
