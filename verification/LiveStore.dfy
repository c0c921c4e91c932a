/**
 live.Store itself, on the heap: slices over backing arrays that are appended to and compacted in place. The clock
 reading each method takes in Go is its parameter `now`. What the memory says is tied to the values of LiveWindow.
 */
module LiveStore {
  import opened LiveWindow
  import opened Wrappers

  /** A Go slice: a backing array and how much of it is in use. */
  datatype Slice = Slice(arr: array<Point>, len: nat)

  ghost predicate Says(s: Slice, points: seq<Point>)
    reads s.arr
  {
    s.len <= s.arr.Length && s.arr[..s.len] == points
  }

  /** append(s, p): in place while there is room, otherwise into a new array. */
  method AppendTo(s: Slice, p: Point, ghost points: seq<Point>) returns (t: Slice)
    requires Says(s, points)
    modifies s.arr
    ensures Says(t, points + [p]) && (t.arr == s.arr || fresh(t.arr))
  {
    if s.len < s.arr.Length {
      s.arr[s.len] := p;
      t := Slice(s.arr, s.len + 1);
    } else {
      var grown := new Point[2 * s.len + 1](_ => p);
      for i := 0 to s.len
        invariant grown[..i] == points[..i]
        invariant forall k :: i <= k < grown.Length ==> grown[k] == p
        invariant s.arr[..s.len] == points
      {
        grown[i] := s.arr[i];
      }
      t := Slice(grown, s.len + 1);
    }
  }

  /** append(s[:0], s[keep:]...): the survivors move to the front of the same array. */
  method Compact(s: Slice, keep: nat, ghost points: seq<Point>) returns (t: Slice)
    requires Says(s, points) && keep <= |points|
    modifies s.arr
    ensures t.arr == s.arr && Says(t, points[keep..])
  {
    for i := 0 to s.len - keep
      invariant s.arr[..i] == points[keep..keep + i]
      invariant forall k :: i <= k < s.len ==> s.arr[k] == points[k]
    {
      s.arr[i] := s.arr[i + keep];
    }
    t := Slice(s.arr, s.len - keep);
  }

  /** make and copy: what a reader gets shares no memory with the store. */
  method CopyFrom(s: Slice, first: nat, ghost points: seq<Point>) returns (out: array<Point>)
    requires Says(s, points) && first < |points|
    ensures fresh(out) && out[..] == points[first..]
  {
    out := new Point[s.len - first](k requires 0 <= k < s.len - first <= s.arr.Length - first reads s.arr => s.arr[first + k]);
    assert forall k :: 0 <= k < out.Length ==> out[k] == points[first + k];
  }

  /** evictLocked's inner loop: how many leading points have expired. */
  method ExpiredPrefix(s: Slice, cutoff: int, ghost points: seq<Point>) returns (keep: nat)
    requires Says(s, points) && Ascending(points)
    ensures keep <= |points|
    ensures forall i :: 0 <= i < keep ==> points[i].ts < cutoff
    ensures forall i :: keep <= i < |points| ==> points[i].ts >= cutoff
  {
    keep := 0;
    while keep < s.len && s.arr[keep].ts < cutoff
      invariant keep <= |points|
      invariant forall i :: 0 <= i < keep ==> points[i].ts < cutoff
    {
      keep := keep + 1;
    }
  }

  /** sort.Search for the first point newer than `since`. */
  method SearchNewer(s: Slice, since: int, ghost points: seq<Point>) returns (first: nat)
    requires Says(s, points) && Ascending(points)
    ensures first <= |points|
    ensures forall i :: 0 <= i < first ==> points[i].ts <= since
    ensures forall i :: first <= i < |points| ==> points[i].ts > since
  {
    var i, j := 0, s.len;
    while i < j
      invariant 0 <= i <= j <= |points|
      invariant forall k :: 0 <= k < i ==> points[k].ts <= since
      invariant forall k :: j <= k < |points| ==> points[k].ts > since
    {
      var h := (i + j) / 2;
      if s.arr[h].ts > since {
        j := h;
      } else {
        i := h + 1;
      }
    }
    return i;
  }

  /** The map of one server's metrics, a reference like every Go map. */
  class MetricBuffers {
    var byMetric: map<string, Slice>
    /** What the slices say. */
    ghost var held: Buffers

    ghost function Arrays(): set<object>
      reads this
    {
      set m | m in byMetric :: byMetric[m].arr
    }

    /** No two metrics share an array. */
    ghost predicate Valid()
      reads this, Arrays()
    {
      && byMetric.Keys == held.Keys
      && (forall m :: m in byMetric ==> Says(byMetric[m], held[m]))
      && (forall m, n :: m in byMetric && n in byMetric && m != n ==> byMetric[m].arr != byMetric[n].arr)
    }

    constructor ()
      ensures Valid() && held == map[] && Arrays() == {}
    {
      byMetric, held := map[], map[];
    }

    /** byMetric[metric] = append(byMetric[metric], p). */
    method AppendPoint(metric: string, p: Point)
      requires Valid()
      modifies this, Arrays()
      ensures Valid() && fresh(Arrays() - old(Arrays()))
      ensures held == old(held)[metric := (if metric in old(held) then old(held)[metric] else []) + [p]]
    {
      ghost var points := if metric in held then held[metric] else [];
      var slice;
      if metric in byMetric {
        slice := byMetric[metric];
      } else {
        var none := new Point[0];
        slice := Slice(none, 0);
      }
      slice := AppendTo(slice, p, points);
      byMetric := byMetric[metric := slice];
      held := held[metric := points + [p]];
    }

    /** One name of a push, unless it is new and the cap is reached. */
    method Offer(metric: string, p: Point) returns (taken: bool)
      requires Valid()
      modifies this, Arrays()
      ensures Valid() && fresh(Arrays() - old(Arrays()))
      ensures taken == Room(old(held), metric) && held == Offered(old(held), metric, p)
    {
      SameSize(byMetric, held);
      if metric !in byMetric && |byMetric| >= MAX_METRICS {
        return false;
      }
      AppendPoint(metric, p);
      return true;
    }

    /** Add's loop over a push, which visits the names in no particular order. */
    method OfferAll(ts: int, samples: map<string, real>) returns (ghost order: seq<string>)
      requires Valid()
      modifies this, Arrays()
      ensures Valid() && fresh(Arrays() - old(Arrays()))
      ensures Visits(samples, order, {}) && held == Loads(old(held), ts, samples, order)
    {
      order := [];
      ghost var start := held;
      var todo := samples.Keys;
      while todo != {}
        invariant Valid() && fresh(Arrays() - old(Arrays()))
        invariant Visits(samples, order, todo) && held == Loads(start, ts, samples, order)
        decreases todo
      {
        var metric := Pick(todo);
        ghost var before := held;
        var taken := Offer(metric, Point(ts, samples[metric]));
        VisitOne(start, ts, samples, order, todo, metric, before, held);
        todo, order := todo - {metric}, order + [metric];
      }
    }

    method CopyNewer(metric: string, since: int) returns (out: array?<Point>)
      requires Valid() && ValidBuffers(held)
      ensures var newer := From(if metric in held then held[metric] else [], since + 1);
              (out == null <==> newer == []) && (out != null ==> fresh(out) && out[..] == newer)
    {
      if metric !in byMetric {
        return null;
      }
      ghost var points := held[metric];
      var first := SearchNewer(byMetric[metric], since, points);
      FromIsSuffix(points, since + 1, first);
      if first == byMetric[metric].len {
        return null;
      }
      out := CopyFrom(byMetric[metric], first, points);
    }

    function LastOf(metric: string): (last: Point)
      requires Valid() && ValidBuffers(held) && metric in held
      reads this, Arrays()
      ensures held[metric] != [] && last == Last(held[metric])
    {
      assert Says(byMetric[metric], held[metric]) && held[metric] != [];
      byMetric[metric].arr[byMetric[metric].len - 1]
    }

    /** The newest value of every metric held and the newest timestamp among them. */
    method Latest() returns (values: map<string, real>, newest: int)
      requires Valid() && ValidBuffers(held)
      ensures values.Keys == held.Keys && Newest(held, values, newest)
    {
      values, newest := map[], 0;
      ghost var b := held;
      var todo := byMetric.Keys;
      while todo != {}
        invariant todo <= b.Keys && values.Keys == b.Keys - todo
        invariant Newest(b, values, newest)
        decreases todo
      {
        var metric := Pick(todo);
        var last := LastOf(metric);
        OneMoreValue(b.Keys, todo, metric, values, last.value);
        NewestGrows(b, values, newest, metric, last);
        values, newest := values[metric := last.value], if last.ts > newest then last.ts else newest;
        todo := todo - {metric};
      }
    }

    /** evictLocked's loop over one server's metrics: writes none but this server's arrays. */
    method Evict(cutoff: int)
      requires Valid() && ValidBuffers(held)
      modifies this, Arrays()
      ensures Valid() && Arrays() <= old(Arrays())
      ensures held == EvictMetrics(old(held), cutoff)
    {
      ghost var start := held;
      var todo := byMetric.Keys;
      EvictNone(start, cutoff);
      while todo != {}
        invariant Valid() && Arrays() <= old(Arrays())
        invariant todo <= held.Keys
        invariant held == EvictSome(start, start.Keys - todo, cutoff)
        decreases todo
      {
        var metric := Pick(todo);
        EvictOne(start, start.Keys - todo, cutoff, metric);
        DoneWith(start.Keys, todo, metric);
        EvictMetric(metric, cutoff);
        todo := todo - {metric};
      }
      EvictEach(start, cutoff);
    }

    /** One metric: left alone, dropped, or compacted in place. */
    method EvictMetric(metric: string, cutoff: int)
      requires Valid() && metric in held && held[metric] != [] && Ascending(held[metric])
      modifies this, Arrays()
      ensures Valid() && Arrays() <= old(Arrays())
      ensures held == Cut(old(held), metric, cutoff)
    {
      ghost var points := held[metric];
      var keep := ExpiredPrefix(byMetric[metric], cutoff, points);
      FromIsSuffix(points, cutoff, keep);
      if keep == 0 {
        assert held == held[metric := points];
      } else if keep == byMetric[metric].len {
        DropMetric(metric);
      } else {
        CompactMetric(metric, keep);
      }
    }

    method DropMetric(metric: string)
      requires Valid()
      modifies this
      ensures Valid() && Arrays() <= old(Arrays())
      ensures held == old(held) - {metric}
    {
      byMetric, held := byMetric - {metric}, held - {metric};
    }

    method CompactMetric(metric: string, keep: nat)
      requires Valid() && metric in held && keep <= |held[metric]|
      modifies this, Arrays()
      ensures Valid() && Arrays() <= old(Arrays())
      ensures held == old(held)[metric := old(held)[metric][keep..]]
    {
      ghost var points := held[metric];
      var slice := Compact(byMetric[metric], keep, points);
      byMetric, held := byMetric[metric := slice], held[metric := points[keep..]];
    }
  }

  class Store {
    var window: int
    var series: map<int, MetricBuffers>
    /** What the memory says. */
    ghost var held: Series
    /** Whose each map and each array is, those let go of included. */
    ghost var owner: map<object, int>

    ghost predicate Valid()
      reads this, owner.Keys
    {
      window > 0 && LiveWindow.Valid(held) && Shape()
    }

    ghost predicate Shape()
      reads this, owner.Keys
    {
      && series.Keys == held.Keys && this !in owner
      && forall id :: id in series ==> Tidy(id) && series[id].held == held[id]
    }

    /** One server's memory is in order and is its own. */
    ghost predicate Tidy(id: int)
      requires id in series
      reads this`series, this`owner, owner.Keys
    {
      && Owns(id, series[id])
      && (forall a :: a in series[id].Arrays() ==> Owns(id, a))
      && series[id].Valid()
    }

    ghost predicate Owns(id: int, o: object)
      reads this`owner
    {
      o in owner && owner[o] == id
    }

    constructor (window: int)
      ensures Valid() && held == map[] && owner == map[]
      ensures this.window == if window <= 0 then MINUTE else window
    {
      this.window := if window <= 0 then MINUTE else window;
      series, held, owner := map[], map[], map[];
    }

    /** Work on one server's memory, new memory included, leaves every other server's as it was. */
    twostate lemma OthersUntouched(serverID: int)
      requires old(Shape()) && serverID in series && unchanged(this)
      requires forall o :: o in owner && owner[o] != serverID ==> unchanged(o)
      ensures forall k :: k in series && k != serverID ==> Tidy(k) && series[k].held == held[k]
    {
      forall k | k in series && k != serverID ensures Tidy(k) && series[k].held == held[k] {
        assert old(Tidy(k));
        var o := series[k];
        assert owner[o] == k && unchanged(o);
        forall a | a in o.Arrays() ensures owner[a] == k && unchanged(a) {
          assert a in old(o.Arrays());
        }
      }
    }

    /** The memory of one server. */
    ghost function Own(id: int): set<object>
      reads this
    {
      set o | o in owner && owner[o] == id
    }

    /** The server's map, made when there is none. */
    method MapOf(serverID: int) returns (byMetric: MetricBuffers)
      requires Shape()
      modifies this`series, this`held, this`owner
      ensures Shape() && Extends(old(owner), owner) && fresh(owner.Keys - old(owner.Keys))
      ensures held == old(held)[serverID := Metrics(old(held), serverID)]
      ensures serverID in series && byMetric == series[serverID]
    {
      if serverID in series {
        byMetric := series[serverID];
        assert held == held[serverID := held[serverID]];
        return;
      }
      byMetric := new MetricBuffers();
      series, held, owner := series[serverID := byMetric], held[serverID := map[]], owner[byMetric := serverID];
      forall k | k in series && k != serverID ensures Tidy(k) && series[k].held == held[k] {
        StaysTidy(k);
      }
      assert Tidy(serverID);
    }

    /** The bookkeeping after work on one server's memory. */
    ghost method Settle(serverID: int)
      requires series.Keys == held.Keys && this !in owner && serverID in series
      requires forall k :: k in series && k != serverID ==> Tidy(k) && series[k].held == held[k]
      requires series[serverID].Valid() && Owns(serverID, series[serverID])
      requires forall a :: a in series[serverID].Arrays() && a in owner ==> Owns(serverID, a)
      modifies this`held, this`owner
      ensures Shape() && held == old(held)[serverID := series[serverID].held]
      ensures Extends(old(owner), owner)
      ensures forall o :: o in owner && o !in old(owner) ==> o in series[serverID].Arrays()
    {
      owner := Claimed(owner, series[serverID].Arrays(), serverID);
      held := held[serverID := series[serverID].held];
      forall k | k in series && k != serverID ensures Tidy(k) && series[k].held == held[k] {
        StaysTidy(k);
      }
      assert Tidy(serverID);
    }

    /** Writing down who owns what disturbs nobody's memory. */
    twostate lemma StaysTidy(k: int)
      requires k in old(series) && old(Tidy(k)) && k in series && series[k] == old(series)[k]
      requires Extends(old(owner), owner)
      requires unchanged(series[k]) && forall a :: a in old(series[k].Arrays()) ==> unchanged(a)
      ensures Tidy(k) && series[k].held == old(series[k].held)
    {
    }

    /** A push offered to a server that has a map: only that server's memory is written. */
    method OfferIn(serverID: int, ts: int, samples: map<string, real>) returns (ghost order: seq<string>)
      requires Shape() && serverID in series
      modifies Own(serverID)
      ensures forall k :: k in series && k != serverID ==> Tidy(k) && series[k].held == held[k]
      ensures series[serverID].Valid() && Owns(serverID, series[serverID])
      ensures forall a :: a in series[serverID].Arrays() ==> Owns(serverID, a) || (fresh(a) && a !in owner)
      ensures Visits(samples, order, {}) && series[serverID].held == Loads(held[serverID], ts, samples, order)
    {
      assert Tidy(serverID);
      ghost var arrays := series[serverID].Arrays();
      order := series[serverID].OfferAll(ts, samples);
      OthersUntouched(serverID);
      assert forall a :: a in arrays ==> Owns(serverID, a);
    }

    /** Eviction in one server's memory. */
    method EvictIn(serverID: int, cutoff: int)
      requires Shape() && serverID in series && ValidBuffers(held[serverID])
      modifies Own(serverID)
      ensures forall k :: k in series && k != serverID ==> Tidy(k) && series[k].held == held[k]
      ensures Tidy(serverID) && series[serverID].held == EvictMetrics(held[serverID], cutoff)
    {
      assert Tidy(serverID);
      ghost var o, arrays := series[serverID], series[serverID].Arrays();
      assert forall a :: a in arrays ==> Owns(serverID, a);
      series[serverID].Evict(cutoff);
      OthersUntouched(serverID);
      assert forall a :: a in o.Arrays() ==> a in arrays;
    }

    /** The same, with the bookkeeping. */
    method LoadInto(serverID: int, ts: int, samples: map<string, real>) returns (ghost order: seq<string>)
      requires Shape() && serverID in series
      modifies this`held, this`owner, Own(serverID)
      ensures Shape() && Extends(old(owner), owner) && fresh(owner.Keys - old(owner.Keys))
      ensures Visits(samples, order, {})
      ensures held == old(held)[serverID := Loads(old(held)[serverID], ts, samples, order)]
    {
      order := OfferIn(serverID, ts, samples);
      Settle(serverID);
    }

    /** Add's part before the eviction. */
    method LoadServer(serverID: int, ts: int, samples: map<string, real>) returns (ghost accepted: set<string>)
      requires Shape() && |Metrics(held, serverID)| <= MAX_METRICS
      modifies this`series, this`held, this`owner, Own(serverID)
      ensures Shape() && Extends(old(owner), owner) && fresh(owner.Keys - old(owner.Keys))
      ensures Admits(Metrics(old(held), serverID), samples, accepted)
      ensures held == Loaded(old(held), serverID, ts, samples, accepted)
    {
      ghost var before := held;
      var byMetric := MapOf(serverID);
      ghost var between := held;
      ghost var order := LoadInto(serverID, ts, samples);
      accepted := LoadedBy(before, serverID, ts, samples, order, between, held);
    }

    /** Writes no memory but this server's. */
    method Add(serverID: int, ts: int, samples: map<string, real>, now: int) returns (ghost accepted: set<string>)
      requires Valid()
      requires NotBefore(Metrics(held, serverID), ts)
      modifies this`series, this`held, this`owner, Own(serverID)
      ensures Valid() && fresh(owner.Keys - old(owner.Keys))
      ensures Admits(Metrics(old(held), serverID), samples, accepted)
      ensures held == LiveWindow.Add(old(held), serverID, ts, samples, accepted, Cutoff(now, window))
    {
      if samples == map[] {
        accepted := {};
      } else {
        accepted := AddSome(serverID, ts, samples, now);
      }
    }

    method AddSome(serverID: int, ts: int, samples: map<string, real>, now: int) returns (ghost accepted: set<string>)
      requires Valid()
      requires NotBefore(Metrics(held, serverID), ts)
      modifies this`series, this`held, this`owner, Own(serverID)
      ensures Valid() && fresh(owner.Keys - old(owner.Keys))
      ensures Admits(Metrics(old(held), serverID), samples, accepted)
      ensures held == LiveWindow.Evict(Loaded(old(held), serverID, ts, samples, accepted), serverID, Cutoff(now, window))
    {
      accepted := LoadReady(serverID, ts, samples);
      EvictServer(serverID, now);
    }

    /** The same, in the order the eviction relies on. */
    method LoadReady(serverID: int, ts: int, samples: map<string, real>) returns (ghost accepted: set<string>)
      requires Valid()
      requires NotBefore(Metrics(held, serverID), ts)
      modifies this`series, this`held, this`owner, Own(serverID)
      ensures Shape() && fresh(owner.Keys - old(owner.Keys)) && fresh(Own(serverID) - old(Own(serverID)))
      ensures Admits(Metrics(old(held), serverID), samples, accepted)
      ensures held == Loaded(old(held), serverID, ts, samples, accepted)
      ensures forall k :: k in held && k != serverID ==> held[k] != map[] && ValidBuffers(held[k])
      ensures ValidBuffers(held[serverID])
    {
      ghost var before := held;
      accepted := LoadServer(serverID, ts, samples);
      AdmittedFits(Metrics(before, serverID), ts, samples, accepted);
      LoadedIsReady(before, serverID, ts, samples, accepted);
    }

    /** evictLocked: drops what is older than the window for one server, writing no memory but its own. */
    method EvictServer(serverID: int, now: int)
      requires window > 0 && Shape()
      requires forall k :: k in held && k != serverID ==> held[k] != map[] && ValidBuffers(held[k])
      requires serverID in held ==> ValidBuffers(held[serverID])
      modifies this`series, this`held, Own(serverID)
      ensures Valid()
      ensures held == LiveWindow.Evict(old(held), serverID, Cutoff(now, window))
    {
      if serverID !in series {
        return;
      }
      EvictKeepsValid(held, serverID, Cutoff(now, window));
      EvictMap(serverID, Cutoff(now, window));
    }

    method EvictMap(serverID: int, cutoff: int)
      requires Shape() && serverID in series && ValidBuffers(held[serverID])
      modifies this`series, this`held, Own(serverID)
      ensures Shape() && held == LiveWindow.Evict(old(held), serverID, cutoff)
    {
      ghost var before := held;
      CutServer(serverID, cutoff);
      EvictedBy(before, serverID, cutoff, held);
      DropIfEmpty(serverID);
    }

    /** The loop, and the bookkeeping. */
    method CutServer(serverID: int, cutoff: int)
      requires Shape() && serverID in series && ValidBuffers(held[serverID])
      modifies this`held, Own(serverID)
      ensures Shape()
      ensures held == old(held)[serverID := EvictMetrics(old(held)[serverID], cutoff)]
    {
      EvictIn(serverID, cutoff);
      Note(serverID);
    }

    /** What one server holds, written down. */
    ghost method Note(serverID: int)
      requires series.Keys == held.Keys && this !in owner && serverID in series
      requires forall k :: k in series ==> Tidy(k)
      requires forall k :: k in series && k != serverID ==> series[k].held == held[k]
      modifies this`held
      ensures Shape() && held == old(held)[serverID := series[serverID].held]
    {
      held := held[serverID := series[serverID].held];
    }

    method DropIfEmpty(serverID: int)
      requires Shape() && serverID in series
      modifies this`series, this`held
      ensures Shape()
      ensures held == DropEmpty(old(held), serverID)
    {
      SameSize(series[serverID].byMetric, held[serverID]);
      if |series[serverID].byMetric| == 0 {
        Forget(serverID);
      }
    }

    method Forget(serverID: int)
      requires Shape()
      modifies this`series, this`held
      ensures Shape() && held == old(held) - {serverID}
      ensures old(LiveWindow.Valid(held)) ==> LiveWindow.Valid(held)
    {
      series, held := series - {serverID}, held - {serverID};
      forall k | k in series ensures Tidy(k) && series[k].held == held[k] {
        StaysTidy(k);
      }
    }

    /** The points newer than `since`, in an array nobody else has; null for none. */
    method SeriesSince(serverID: int, metric: string, since: int, now: int) returns (out: array?<Point>)
      requires Valid()
      modifies this`series, this`held, Own(serverID)
      ensures Valid()
      ensures held == LiveWindow.Evict(old(held), serverID, Cutoff(now, window))
      ensures out == null <==> Newer(old(held), serverID, metric, since, Cutoff(now, window)) == []
      ensures out != null ==>
                fresh(out) && out[..] == Newer(old(held), serverID, metric, since, Cutoff(now, window))
      ensures forall p :: out != null && p in out[..] <==>
                p in Held(old(held), serverID, metric) && p.ts > since && p.ts >= Unix(now - window)
    {
      ghost var before := held;
      EvictServer(serverID, now);
      NewerAfter(before, serverID, metric, since, Cutoff(now, window), held);
      NewerMembers(before, serverID, metric, since, Cutoff(now, window));
      out := CopyNewer(serverID, metric, since);
    }

    method CopyNewer(serverID: int, metric: string, since: int) returns (out: array?<Point>)
      requires Valid()
      ensures out == null <==> From(Held(held, serverID, metric), since + 1) == []
      ensures out != null ==> fresh(out) && out[..] == From(Held(held, serverID, metric), since + 1)
    {
      if serverID !in series {
        return null;
      }
      assert Tidy(serverID);
      out := series[serverID].CopyNewer(metric, since);
    }

    /** The newest value of every metric held and the newest timestamp among them. */
    method Latest(serverID: int, now: int) returns (values: map<string, real>, newest: int)
      requires Valid()
      modifies this`series, this`held, Own(serverID)
      ensures Valid()
      ensures held == LiveWindow.Evict(old(held), serverID, Cutoff(now, window))
      ensures values.Keys == Metrics(held, serverID).Keys && Newest(Metrics(held, serverID), values, newest)
    {
      EvictServer(serverID, now);
      values, newest := ReadLatest(serverID);
    }

    method ReadLatest(serverID: int) returns (values: map<string, real>, newest: int)
      requires Valid()
      ensures values.Keys == Metrics(held, serverID).Keys && Newest(Metrics(held, serverID), values, newest)
    {
      if serverID !in series {
        return map[], 0;
      }
      assert Tidy(serverID);
      values, newest := series[serverID].Latest();
    }

    /** A change of window trims every server at once. */
    method SetWindow(window: int, now: int)
      requires Valid()
      modifies this`window, this`series, this`held, owner.Keys
      ensures Valid()
      ensures window <= 0 ==> held == old(held) && this.window == old(this.window)
      ensures window > 0 ==> held == EvictAll(old(held), Cutoff(now, window)) && this.window == window
    {
      if window <= 0 {
        return;
      }
      this.window := window;
      EvictEveryone(now);
    }

    method EvictNext(serverID: int, now: int, ghost before: Series, ghost done: set<int>, ghost more: set<int>)
      requires Valid() && serverID in before && serverID !in done
      requires held == Trimmed(before, done, Cutoff(now, window))
      requires forall k :: k in before ==> (k in more <==> k in done || k == serverID)
      modifies this`series, this`held, Own(serverID)
      ensures Valid() && held == Trimmed(before, more, Cutoff(now, window))
    {
      TrimOne(before, done, more, Cutoff(now, window), serverID);
      EvictServer(serverID, now);
    }

    method EvictEveryone(now: int)
      requires Valid()
      modifies this`series, this`held, owner.Keys
      ensures Valid() && held == EvictAll(old(held), Cutoff(now, window))
    {
      ghost var before, cutoff := held, Cutoff(now, window);
      var todo := series.Keys;
      TrimNone(before, cutoff);
      while todo != {}
        invariant Valid()
        invariant todo <= before.Keys
        invariant held == Trimmed(before, before.Keys - todo, cutoff)
        decreases todo
      {
        var serverID := Pick(todo);
        EvictNext(serverID, now, before, before.Keys - todo, before.Keys - (todo - {serverID}));
        todo := todo - {serverID};
      }
      TrimAll(before, cutoff);
    }
  }

  /** What a reader holding everything up to `since` is missing. */
  function Newer(s: Series, id: int, metric: string, since: int, cutoff: int): seq<Point> {
    From(From(Held(s, id, metric), cutoff), since + 1)
  }

  lemma NewerAfter(s: Series, id: int, metric: string, since: int, cutoff: int, after: Series)
    requires after == Evict(s, id, cutoff)
    ensures Newer(s, id, metric, since, cutoff) == From(Held(after, id, metric), since + 1)
  {
    HeldAfterEvict(s, id, cutoff, id, metric);
  }

  lemma NewerMembers(s: Series, id: int, metric: string, since: int, cutoff: int)
    ensures forall p :: p in Newer(s, id, metric, since, cutoff) <==> p in Held(s, id, metric) && p.ts > since && p.ts >= cutoff
  {
    FromMembers(Held(s, id, metric), cutoff);
    FromMembers(From(Held(s, id, metric), cutoff), since + 1);
  }

  lemma {:induction false} FromMembers(points: seq<Point>, t: int)
    ensures forall p :: p in From(points, t) <==> p in points && p.ts >= t
  {
    if points != [] {
      FromMembers(points[..|points| - 1], t);
      assert points == points[..|points| - 1] + [points[|points| - 1]];
    }
  }

  function DropEmpty(s: Series, id: int): Series {
    if id in s && s[id] == map[] then s - {id} else s
  }

  lemma EvictedBy(s: Series, id: int, cutoff: int, between: Series)
    requires id in s && between == s[id := EvictMetrics(s[id], cutoff)]
    ensures Evict(s, id, cutoff) == DropEmpty(between, id)
  {
    assert s - {id} == between - {id};
  }

  lemma TrimNone(s: Series, cutoff: int)
    ensures Trimmed(s, s.Keys - s.Keys, cutoff) == s
  {
  }

  lemma TrimAll(s: Series, cutoff: int)
    ensures Trimmed(s, s.Keys - {}, cutoff) == EvictAll(s, cutoff)
  {
  }

  /** What nobody owned yet becomes this server's. */
  ghost function Claimed(owner: map<object, int>, found: set<object>, id: int): map<object, int> {
    map o | o in owner.Keys + found :: if o in owner then owner[o] else id
  }

  /** Nothing changes hands. */
  ghost predicate Extends(before: map<object, int>, after: map<object, int>) {
    forall o :: o in before ==> o in after && after[o] == before[o]
  }

  lemma LoadedBy(s: Series, id: int, ts: int, samples: map<string, real>, order: seq<string>, between: Series, after: Series)
    returns (accepted: set<string>)
    requires between == s[id := Metrics(s, id)] && |Metrics(s, id)| <= MAX_METRICS && Visits(samples, order, {})
    requires after == between[id := Loads(between[id], ts, samples, order)]
    ensures Admits(Metrics(s, id), samples, accepted) && after == Loaded(s, id, ts, samples, accepted)
  {
    var b := Metrics(s, id);
    accepted := Kept(b, ts, samples, order);
    assert between[id] == b;
    LoadsAdmit(b, ts, samples, order, Loads(b, ts, samples, order), accepted);
    Overwrite(s, id, b, Append(b, ts, samples, accepted));
  }

  lemma Overwrite<A>(s: map<int, A>, id: int, x: A, y: A)
    ensures s[id := x][id := y] == s[id := y]
  {
  }

  /** The newest values of some metrics, and the newest timestamp among them. */
  ghost predicate Newest(b: Buffers, values: map<string, real>, newest: int) {
    && (forall m :: m in values ==> m in b && b[m] != [] && values[m] == Last(b[m]).value && Last(b[m]).ts <= newest)
    && (newest == 0 || exists m :: m in values && Last(b[m]).ts == newest)
  }

  lemma OneMoreValue(all: set<string>, todo: set<string>, metric: string, values: map<string, real>, value: real)
    requires metric in todo && todo <= all && values.Keys == all - todo
    ensures metric !in values && values[metric := value].Keys == all - (todo - {metric})
  {
  }

  lemma NewestGrows(b: Buffers, values: map<string, real>, newest: int, metric: string, last: Point)
    requires Newest(b, values, newest) && metric in b && metric !in values && b[metric] != [] && last == Last(b[metric])
    ensures Newest(b, values[metric := last.value], if last.ts > newest then last.ts else newest)
  {
    var grown := values[metric := last.value];
    if last.ts > newest {
      assert metric in grown;
    } else if newest != 0 {
      var m :| m in values && Last(b[m]).ts == newest;
      assert m in grown;
    }
  }

  function Cut(b: Buffers, metric: string, cutoff: int): Buffers
    requires metric in b
  {
    if From(b[metric], cutoff) == [] then b - {metric} else b[metric := From(b[metric], cutoff)]
  }

  /** Eviction part-way: only the metrics in `done` have been cut. */
  function EvictSome(b: Buffers, done: set<string>, cutoff: int): Buffers {
    map m | m in b && (m in done ==> From(b[m], cutoff) != []) :: if m in done then From(b[m], cutoff) else b[m]
  }

  lemma EvictNone(b: Buffers, cutoff: int)
    ensures EvictSome(b, b.Keys - b.Keys, cutoff) == b
  {
  }

  lemma EvictEach(b: Buffers, cutoff: int)
    ensures EvictSome(b, b.Keys - {}, cutoff) == EvictMetrics(b, cutoff)
  {
  }

  lemma EvictOne(b: Buffers, done: set<string>, cutoff: int, metric: string)
    requires metric in b && metric !in done
    ensures metric in EvictSome(b, done, cutoff) && EvictSome(b, done, cutoff)[metric] == b[metric]
    ensures Cut(EvictSome(b, done, cutoff), metric, cutoff) == EvictSome(b, done + {metric}, cutoff)
  {
  }

  lemma DoneWith(all: set<string>, todo: set<string>, metric: string)
    requires metric in todo && todo <= all
    ensures all - (todo - {metric}) == all - todo + {metric}
  {
  }

  lemma SameSize<A, B>(a: map<string, A>, b: map<string, B>)
    requires a.Keys == b.Keys
    ensures |a| == |b|
  {
    assert |a| == |a.Keys| && |b| == |b.Keys|;
  }

  /** SetWindow part-way: only the servers in `done` have been evicted. */
  ghost function Trimmed(s: Series, done: set<int>, cutoff: int): Series {
    map id | id in s && (id in done ==> EvictMetrics(s[id], cutoff) != map[]) ::
      if id in done then EvictMetrics(s[id], cutoff) else s[id]
  }

  lemma TrimOne(s: Series, done: set<int>, more: set<int>, cutoff: int, id: int)
    requires id in s && id !in done && forall k :: k in s ==> (k in more <==> k in done || k == id)
    ensures Evict(Trimmed(s, done, cutoff), id, cutoff) == Trimmed(s, more, cutoff)
  {
    var part, after := Trimmed(s, done, cutoff), Trimmed(s, more, cutoff);
    var evicted := Evict(part, id, cutoff);
    assert id in part && part[id] == s[id] && id in more;
    forall k ensures k in evicted <==> k in after {
      assert k in s ==> (k in more <==> k in done || k == id);
    }
    forall k | k in evicted ensures evicted[k] == after[k] {
      assert k in s ==> (k in more <==> k in done || k == id);
    }
  }

  predicate Room(b: Buffers, metric: string) {
    metric in b || |b| < MAX_METRICS
  }

  function Offered(b: Buffers, metric: string, p: Point): Buffers {
    if Room(b, metric) then b[metric := (if metric in b then b[metric] else []) + [p]] else b
  }

  /** The names in `order` have been visited, each once, and the ones in `todo` have not. */
  ghost predicate Visits(samples: map<string, real>, order: seq<string>, todo: set<string>) {
    && todo <= samples.Keys
    && (forall m :: m in order <==> m in samples && m !in todo)
    && (forall i, j :: 0 <= i < j < |order| ==> order[i] != order[j])
  }

  ghost predicate Names(samples: map<string, real>, order: seq<string>) {
    forall m :: m in order ==> m in samples
  }

  /** The buffers after the names in `order`. */
  ghost function Loads(b: Buffers, ts: int, samples: map<string, real>, order: seq<string>): Buffers
    requires Names(samples, order)
  {
    if order == [] then b
    else
      var m := order[|order| - 1];
      Offered(Loads(b, ts, samples, order[..|order| - 1]), m, Point(ts, samples[m]))
  }

  /** Which of them were taken. */
  ghost function Kept(b: Buffers, ts: int, samples: map<string, real>, order: seq<string>): set<string>
    requires Names(samples, order)
  {
    if order == [] then {}
    else
      var init, m := order[..|order| - 1], order[|order| - 1];
      Kept(b, ts, samples, init) + (if Room(Loads(b, ts, samples, init), m) then {m} else {})
  }

  lemma VisitOne(b: Buffers, ts: int, samples: map<string, real>, order: seq<string>, todo: set<string>,
                 metric: string, sofar: Buffers, next: Buffers)
    requires Visits(samples, order, todo) && metric in todo
    requires sofar == Loads(b, ts, samples, order) && next == Offered(sofar, metric, Point(ts, samples[metric]))
    ensures Visits(samples, order + [metric], todo - {metric})
    ensures next == Loads(b, ts, samples, order + [metric])
  {
    assert (order + [metric])[..|order|] == order;
  }

  /** OfferAll part-way: the names outside `todo` have been visited. */
  ghost predicate Loading(held: Buffers, ts: int, samples: map<string, real>,
                          todo: set<string>, b: Buffers, accepted: set<string>)
  {
    && todo <= samples.Keys && accepted <= samples.Keys - todo
    && (samples.Keys - todo) * held.Keys <= accepted
    && b.Keys == held.Keys + accepted
    && (forall m :: m in b ==> b[m] == Grown(held, ts, samples, accepted, m))
    && |b| <= MAX_METRICS
    && (accepted == samples.Keys - todo || |b| == MAX_METRICS)
  }

  lemma LoadOne(held: Buffers, ts: int, samples: map<string, real>, todo: set<string>, b: Buffers, accepted: set<string>,
                metric: string)
    requires Loading(held, ts, samples, todo, b, accepted) && metric in todo
    ensures if metric !in b && |b| >= MAX_METRICS then
              Loading(held, ts, samples, todo - {metric}, b, accepted)
            else
              var points := if metric in b then b[metric] else [];
              Loading(held, ts, samples, todo - {metric}, b[metric := points + [Point(ts, samples[metric])]],
                      accepted + {metric})
  {
  }

  /** The last name of an order. */
  lemma LastOffer(b: Buffers, ts: int, samples: map<string, real>, order: seq<string>, sofar: Buffers, some: set<string>,
                  loaded: Buffers, kept: set<string>)
    requires order != [] && Names(samples, order) && Names(samples, order[..|order| - 1])
    requires sofar == Loads(b, ts, samples, order[..|order| - 1]) && some == Kept(b, ts, samples, order[..|order| - 1])
    requires loaded == Loads(b, ts, samples, order) && kept == Kept(b, ts, samples, order)
    ensures var m := order[|order| - 1];
            if m !in sofar && |sofar| >= MAX_METRICS then loaded == sofar && kept == some
            else
              var points := if m in sofar then sofar[m] else [];
              loaded == sofar[m := points + [Point(ts, samples[m])]] && kept == some + {m}
  {
    assert some + {} == some;
  }

  lemma {:induction false} LoadsWell(b: Buffers, ts: int, samples: map<string, real>, order: seq<string>, todo: set<string>,
                                     loaded: Buffers, kept: set<string>)
    requires |b| <= MAX_METRICS && Visits(samples, order, todo)
    requires loaded == Loads(b, ts, samples, order) && kept == Kept(b, ts, samples, order)
    ensures Loading(b, ts, samples, todo, loaded, kept)
    decreases |order|
  {
    if order == [] {
      assert todo == samples.Keys;
      NothingLoaded(b, ts, samples, todo);
    } else {
      var init, m := order[..|order| - 1], order[|order| - 1];
      var before := LastVisit(samples, order, todo);
      var sofar, some := Loads(b, ts, samples, init), Kept(b, ts, samples, init);
      LoadsWell(b, ts, samples, init, before, sofar, some);
      LastOffer(b, ts, samples, order, sofar, some, loaded, kept);
      LoadOne(b, ts, samples, before, sofar, some, m);
    }
  }

  lemma NothingLoaded(b: Buffers, ts: int, samples: map<string, real>, todo: set<string>)
    requires |b| <= MAX_METRICS && todo == samples.Keys
    ensures Loading(b, ts, samples, todo, b, {})
  {
  }

  lemma LastVisit(samples: map<string, real>, order: seq<string>, todo: set<string>) returns (before: set<string>)
    requires Visits(samples, order, todo) && order != []
    ensures Visits(samples, order[..|order| - 1], before)
    ensures order[|order| - 1] in before && todo == before - {order[|order| - 1]}
  {
    var init, m := order[..|order| - 1], order[|order| - 1];
    assert m in order && forall k :: k in order <==> k in init || k == m;
    before := todo + {m};
  }

  lemma LoadsAdmit(b: Buffers, ts: int, samples: map<string, real>, order: seq<string>, loaded: Buffers, kept: set<string>)
    requires |b| <= MAX_METRICS && Visits(samples, order, {})
    requires loaded == Loads(b, ts, samples, order) && kept == Kept(b, ts, samples, order)
    ensures Admits(b, samples, kept) && loaded == Append(b, ts, samples, kept)
  {
    LoadsWell(b, ts, samples, order, {}, loaded, kept);
    LoadedAdmits(b, ts, samples, loaded, kept);
    LoadedAppends(b, ts, samples, loaded, kept);
  }

  lemma FittingAdmits(held: Buffers, samples: map<string, real>, accepted: set<string>)
    requires accepted <= samples.Keys && samples.Keys * held.Keys <= accepted
    requires |held.Keys + accepted| <= MAX_METRICS
    requires accepted == samples.Keys || |held.Keys + accepted| == MAX_METRICS
    ensures Admits(held, samples, accepted)
  {
    UnionSize(held.Keys, accepted);
    assert |held| == |held.Keys|;
  }

  lemma LoadedAdmits(held: Buffers, ts: int, samples: map<string, real>, b: Buffers, accepted: set<string>)
    requires Loading(held, ts, samples, {}, b, accepted)
    ensures Admits(held, samples, accepted)
  {
    var names := samples.Keys - {};
    assert names == samples.Keys;
    assert |b| == |b.Keys|;
    FittingAdmits(held, samples, accepted);
  }

  lemma LoadedAppends(held: Buffers, ts: int, samples: map<string, real>, b: Buffers, accepted: set<string>)
    requires Loading(held, ts, samples, {}, b, accepted)
    ensures b == Append(held, ts, samples, accepted)
  {
    var appended := Append(held, ts, samples, accepted);
    assert b.Keys == appended.Keys;
    assert forall m :: m in b ==> b[m] == appended[m];
  }

  lemma AdmittedFits(b: Buffers, ts: int, samples: map<string, real>, accepted: set<string>)
    requires |b| <= MAX_METRICS && Admits(b, samples, accepted)
    ensures |Append(b, ts, samples, accepted)| <= MAX_METRICS
  {
    var appended := Append(b, ts, samples, accepted);
    UnionSize(b.Keys, accepted);
    assert appended.Keys == b.Keys + accepted && |appended| == |appended.Keys| && |b| == |b.Keys|;
  }

  lemma UnionSize<T>(a: set<T>, b: set<T>)
    ensures |a + b| == |a| + |b - a|
  {
    assert a + b == a + (b - a);
  }

  lemma AppendKeepsBuffers(held: Buffers, ts: int, samples: map<string, real>, accepted: set<string>)
    requires ValidBuffers(held) && NotBefore(held, ts) && accepted <= samples.Keys
    requires |Append(held, ts, samples, accepted)| <= MAX_METRICS
    ensures ValidBuffers(Append(held, ts, samples, accepted))
  {
  }

  lemma LoadedIsReady(s: Series, id: int, ts: int, samples: map<string, real>, accepted: set<string>)
    requires Valid(s) && NotBefore(Metrics(s, id), ts) && accepted <= samples.Keys
    requires |Append(Metrics(s, id), ts, samples, accepted)| <= MAX_METRICS
    ensures var loaded := Loaded(s, id, ts, samples, accepted);
            && (forall k :: k in loaded && k != id ==> loaded[k] != map[] && ValidBuffers(loaded[k]))
            && ValidBuffers(loaded[id])
  {
    AppendKeepsBuffers(Metrics(s, id), ts, samples, accepted);
  }
}
