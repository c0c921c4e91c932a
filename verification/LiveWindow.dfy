/** The in-memory live window of mother/live/live.go: what it holds, as values. */
module LiveWindow {
  import opened Wrappers

  const MAX_METRICS := 256

  // Clocks and windows are whole nanoseconds, as in Go's time package.
  const SECOND := 1_000_000_000
  const MINUTE := 60 * SECOND

  datatype Point = Point(ts: int, value: real)

  type Buffers = map<string, seq<Point>>
  type Series = map<int, Buffers>

  /** Unix seconds of an instant given in nanoseconds. */
  function Unix(now: int): int {
    now / SECOND
  }

  function Cutoff(now: int, window: int): int {
    Unix(now - window)
  }

  /** The points at or after t, in order. */
  function From(points: seq<Point>, t: int): seq<Point> {
    if points == [] then []
    else
      var init, last := points[..|points| - 1], points[|points| - 1];
      if last.ts >= t then From(init, t) + [last] else From(init, t)
  }

  function Last(points: seq<Point>): Point
    requires points != []
  {
    points[|points| - 1]
  }

  ghost predicate Ascending(points: seq<Point>) {
    forall i, j :: 0 <= i < j < |points| ==> points[i].ts <= points[j].ts
  }

  ghost predicate StrictlyAscending(points: seq<Point>) {
    forall i, j :: 0 <= i < j < |points| ==> points[i].ts < points[j].ts
  }

  function Held(s: Series, id: int, metric: string): seq<Point> {
    if id in s && metric in s[id] then s[id][metric] else []
  }

  function Metrics(s: Series, id: int): Buffers {
    if id in s then s[id] else map[]
  }

  /** One server's buffers with everything before the cutoff gone, emptied metrics included. */
  function EvictMetrics(b: Buffers, cutoff: int): Buffers {
    map m | m in b && From(b[m], cutoff) != [] :: From(b[m], cutoff)
  }

  function Evict(s: Series, id: int, cutoff: int): Series {
    if id !in s then s
    else
      var b := EvictMetrics(s[id], cutoff);
      if b == map[] then s - {id} else s[id := b]
  }

  function EvictAll(s: Series, cutoff: int): Series {
    map id | id in s && EvictMetrics(s[id], cutoff) != map[] :: EvictMetrics(s[id], cutoff)
  }

  /** Which names of a push are kept: every known one, and new ones in any order until the cap. */
  ghost predicate Admits(b: Buffers, samples: map<string, real>, accepted: set<string>) {
    && accepted <= samples.Keys
    && samples.Keys * b.Keys <= accepted
    && (accepted == samples.Keys || |b| + |accepted - b.Keys| >= MAX_METRICS)
    && (|b| <= MAX_METRICS ==> |b| + |accepted - b.Keys| <= MAX_METRICS)
  }

  function Grown(b: Buffers, ts: int, samples: map<string, real>, accepted: set<string>, m: string): seq<Point>
    requires accepted <= samples.Keys
  {
    var points := if m in b then b[m] else [];
    if m in accepted then points + [Point(ts, samples[m])] else points
  }

  function Append(b: Buffers, ts: int, samples: map<string, real>, accepted: set<string>): Buffers
    requires accepted <= samples.Keys
  {
    map m | m in b.Keys + accepted :: Grown(b, ts, samples, accepted, m)
  }

  /** A push appended, before the eviction that follows. */
  function Loaded(s: Series, id: int, ts: int, samples: map<string, real>, accepted: set<string>): Series
    requires accepted <= samples.Keys
  {
    s[id := Append(Metrics(s, id), ts, samples, accepted)]
  }

  function Add(s: Series, id: int, ts: int, samples: map<string, real>, accepted: set<string>, cutoff: int): Series
    requires accepted <= samples.Keys
  {
    if samples == map[] then s
    else Evict(Loaded(s, id, ts, samples, accepted), id, cutoff)
  }

  /** The representation invariant of Store.series. */
  ghost predicate Valid(s: Series) {
    forall id :: id in s ==> s[id] != map[] && ValidBuffers(s[id])
  }

  ghost predicate ValidBuffers(b: Buffers) {
    && |b| <= MAX_METRICS
    && forall m :: m in b ==> b[m] != [] && Ascending(b[m])
  }

  /** The demand documented on the series field: pushes arrive in mother-clock order. */
  ghost predicate NotBefore(b: Buffers, ts: int) {
    forall m, p :: m in b && p in b[m] ==> p.ts <= ts
  }

  // ----- Filters -----

  /** On an ascending list the filter is the suffix the eviction loop and the binary search find. */
  lemma {:induction false} FromIsSuffix(points: seq<Point>, t: int, k: nat)
    requires k <= |points|
    requires forall i :: 0 <= i < k ==> points[i].ts < t
    requires forall i :: k <= i < |points| ==> points[i].ts >= t
    ensures From(points, t) == points[k..]
  {
    if points != [] {
      var n := |points| - 1;
      if k <= n {
        FromIsSuffix(points[..n], t, k);
        assert points[k..] == points[..n][k..] + [points[n]];
      } else {
        FromIsSuffix(points[..n], t, n);
      }
    }
  }

  lemma SuffixFrom(points: seq<Point>, t: int) returns (k: nat)
    requires Ascending(points)
    ensures k <= |points| && From(points, t) == points[k..]
    ensures forall i :: 0 <= i < k ==> points[i].ts < t
    ensures forall i :: k <= i < |points| ==> points[i].ts >= t
  {
    k := 0;
    while k < |points| && points[k].ts < t
      invariant k <= |points|
      invariant forall i :: 0 <= i < k ==> points[i].ts < t
    {
      k := k + 1;
    }
    FromIsSuffix(points, t, k);
  }

  lemma EvictKeepsValid(s: Series, id: int, cutoff: int)
    requires forall k :: k in s && k != id ==> s[k] != map[] && ValidBuffers(s[k])
    requires id in s ==> ValidBuffers(s[id])
    ensures Valid(Evict(s, id, cutoff))
  {
    if id in s {
      EvictKeepsBuffers(s[id], cutoff);
    }
  }

  lemma EvictKeepsBuffers(b: Buffers, cutoff: int)
    requires ValidBuffers(b)
    ensures ValidBuffers(EvictMetrics(b, cutoff))
  {
    var e := EvictMetrics(b, cutoff);
    SubsetSize(e.Keys, b.Keys);
    assert |e| == |e.Keys| && |b| == |b.Keys|;
    forall m | m in e ensures Ascending(e[m]) {
      var k := SuffixFrom(b[m], cutoff);
    }
  }

  /** What evicting does to any one buffer. */
  lemma HeldAfterEvict(s: Series, id: int, cutoff: int, k: int, m: string)
    ensures Held(Evict(s, id, cutoff), k, m) == if k == id then From(Held(s, k, m), cutoff) else Held(s, k, m)
  {
    if k == id && id in s {
      var b := EvictMetrics(s[id], cutoff);
      assert m in b <==> m in s[id] && From(s[id][m], cutoff) != [];
      assert b == map[] ==> m !in b;
    }
  }

  lemma HeldAfterEvictAll(s: Series, cutoff: int, k: int, m: string)
    ensures Held(EvictAll(s, cutoff), k, m) == From(Held(s, k, m), cutoff)
  {
    if k in s {
      var b := EvictMetrics(s[k], cutoff);
      assert m in b <==> m in s[k] && From(s[k][m], cutoff) != [];
      assert b == map[] ==> m !in b;
    }
  }

  lemma HeldAfterAppend(s: Series, id: int, ts: int, samples: map<string, real>, accepted: set<string>, k: int, m: string)
    requires accepted <= samples.Keys
    ensures Held(Loaded(s, id, ts, samples, accepted), k, m)
         == Held(s, k, m) + (if k == id && m in accepted then [Point(ts, samples[m])] else [])
  {
  }

  // ----- The store as a filtered log -----

  datatype Op =
    | AddOp(id: int, ts: int, samples: map<string, real>, accepted: set<string>, cutoff: int)
    | EvictOp(id: int, cutoff: int)
    | WindowOp(cutoff: int)
    | ForgetOp(id: int)
  {
    ghost predicate WellFormed() {
      AddOp? ==> accepted <= samples.Keys
    }

    /** The points this operation is the first to hold. */
    function Adds(k: int, m: string): seq<Point>
      requires WellFormed()
    {
      if AddOp? && id == k && m in accepted then [Point(ts, samples[m])] else []
    }

    /** Does p, held for server k, outlive this operation? */
    predicate Spares(k: int, p: Point) {
      match this
      case AddOp(id, _, samples, _, cutoff) => id == k && samples != map[] ==> p.ts >= cutoff
      case EvictOp(id, cutoff) => id == k ==> p.ts >= cutoff
      case WindowOp(cutoff) => p.ts >= cutoff
      case ForgetOp(id) => id != k
    }
  }

  function Apply(s: Series, op: Op): Series
    requires op.WellFormed()
  {
    match op
    case AddOp(id, ts, samples, accepted, cutoff) => Add(s, id, ts, samples, accepted, cutoff)
    case EvictOp(id, cutoff) => Evict(s, id, cutoff)
    case WindowOp(cutoff) => EvictAll(s, cutoff)
    case ForgetOp(id) => s - {id}
  }

  ghost predicate AllWellFormed(ops: seq<Op>) {
    forall i :: 0 <= i < |ops| ==> ops[i].WellFormed()
  }

  function Run(ops: seq<Op>): Series
    requires AllWellFormed(ops)
  {
    if ops == [] then map[] else Apply(Run(ops[..|ops| - 1]), ops[|ops| - 1])
  }

  /** A point added by operation i is spared by operation i and by every later one. */
  ghost predicate Survives(ops: seq<Op>, i: nat, k: int, p: Point) {
    forall j :: i <= j < |ops| ==> ops[j].Spares(k, p)
  }

  /** The plain log: the points the first n operations added that all of ops spares, in order. */
  ghost function Log(ops: seq<Op>, n: nat, k: int, m: string): seq<Point>
    requires n <= |ops| && AllWellFormed(ops)
  {
    if n == 0 then []
    else
      var added := ops[n - 1].Adds(k, m);
      Log(ops, n - 1, k, m) + if added != [] && Survives(ops, n - 1, k, added[0]) then added else []
  }

  function Spared(op: Op, k: int, points: seq<Point>): seq<Point> {
    if points == [] then []
    else
      var rest := Spared(op, k, points[..|points| - 1]);
      if op.Spares(k, points[|points| - 1]) then rest + [points[|points| - 1]] else rest
  }

  lemma {:induction false} SparedIsFrom(op: Op, k: int, points: seq<Point>)
    ensures Spared(op, k, points) ==
            match op
            case AddOp(id, _, samples, _, cutoff) => if id == k && samples != map[] then From(points, cutoff) else points
            case EvictOp(id, cutoff) => if id == k then From(points, cutoff) else points
            case WindowOp(cutoff) => From(points, cutoff)
            case ForgetOp(id) => if id == k then [] else points
  {
    if points != [] {
      SparedIsFrom(op, k, points[..|points| - 1]);
      assert points == points[..|points| - 1] + [points[|points| - 1]];
    }
  }

  lemma HeldAfterApply(s: Series, op: Op, k: int, m: string)
    requires op.WellFormed()
    ensures Held(Apply(s, op), k, m) == Spared(op, k, Held(s, k, m) + op.Adds(k, m))
  {
    SparedIsFrom(op, k, Held(s, k, m) + op.Adds(k, m));
    assert Held(s, k, m) + [] == Held(s, k, m);
    if op.WindowOp? {
      HeldAfterEvictAll(s, op.cutoff, k, m);
    } else if op.EvictOp? {
      HeldAfterEvict(s, op.id, op.cutoff, k, m);
    } else if op.AddOp? && op.samples != map[] {
      HeldAfterAppend(s, op.id, op.ts, op.samples, op.accepted, k, m);
      HeldAfterEvict(Loaded(s, op.id, op.ts, op.samples, op.accepted), op.id, op.cutoff, k, m);
    }
  }

  lemma {:induction false} SparedAppend(op: Op, k: int, a: seq<Point>, b: seq<Point>)
    ensures Spared(op, k, a + b) == Spared(op, k, a) + Spared(op, k, b)
    decreases |b|
  {
    if b == [] {
      assert a + b == a;
    } else {
      var n := |b| - 1;
      assert (a + b)[..|a + b| - 1] == a + b[..n];
      SparedAppend(op, k, a, b[..n]);
    }
  }

  lemma {:induction false} LogExtends(ops: seq<Op>, op: Op, n: nat, k: int, m: string)
    requires n <= |ops| && AllWellFormed(ops) && op.WellFormed()
    ensures Log(ops + [op], n, k, m) == Spared(op, k, Log(ops, n, k, m))
  {
    if n > 0 {
      LogExtends(ops, op, n - 1, k, m);
      assert (ops + [op])[n - 1] == ops[n - 1];
      var added := ops[n - 1].Adds(k, m);
      if added != [] {
        var p := added[0];
        assert Survives(ops + [op], n - 1, k, p) <==> Survives(ops, n - 1, k, p) && op.Spares(k, p) by {
          if Survives(ops + [op], n - 1, k, p) {
            assert (ops + [op])[|ops|] == op;
            forall j | n - 1 <= j < |ops| ensures ops[j].Spares(k, p) {
              assert (ops + [op])[j] == ops[j];
            }
          }
        }
        SparedAppend(op, k, Log(ops, n - 1, k, m), if Survives(ops, n - 1, k, p) then added else []);
        assert Spared(op, k, added[..0]) == [];
      } else {
        assert Log(ops, n - 1, k, m) + [] == Log(ops, n - 1, k, m);
      }
    }
  }

  /** Whatever was done, the buffer is the log of accepted points no cutoff or Forget since has taken. */
  lemma {:induction false} RefinesLog(ops: seq<Op>, k: int, m: string)
    requires AllWellFormed(ops)
    ensures Held(Run(ops), k, m) == Log(ops, |ops|, k, m)
  {
    if ops != [] {
      var n := |ops| - 1;
      var before, op := ops[..n], ops[n];
      assert ops == before + [op];
      RefinesLog(before, k, m);
      HeldAfterApply(Run(before), op, k, m);
      LogExtends(before, op, n, k, m);
      var added := op.Adds(k, m);
      SparedAppend(op, k, Log(before, n, k, m), added);
      if added != [] {
        assert Survives(ops, n, k, added[0]) <==> op.Spares(k, added[0]);
        assert Spared(op, k, added[..0]) == [];
      }
    }
  }
}
