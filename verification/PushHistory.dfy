/** The mother's rollup tables told from the requests she was sent: which pushes each of their rows stands for. */
module PushHistory {
  import opened Wrappers
  import opened MotherTables
  import L = LiveWindow
  import R = Rollups

  /** The push an event records, as it was sent: its token is the row's, and it is stamped after the row's last one. */
  function Accepted(t: Tables, e: Event): seq<R.Push> {
    if e.Ingest? && e.accepted <= e.samples.Keys && e.id in t.servers && e.token == t.servers[e.id].token
       && e.now > t.servers[e.id].lastPush
    then [R.Push(e.id, e.now, e.samples)] else []
  }

  /** All pushes recorded. */
  function History(events: seq<Event>): seq<R.Push> {
    if events == [] then []
    else
      var init := events[..|events| - 1];
      History(init) + Accepted(Run(EMPTY, init), events[|events| - 1])
  }

  datatype TierName = Minute | Hour

  function Width(tier: TierName): int { if tier.Minute? then 60 else 3600 }

  function Rows(t: Tables, tier: TierName): R.Tier { if tier.Minute? then t.minute else t.hour }

  /** Does an event take the row of this server that starts there: with the server, by its age, or by an operator's range? */
  predicate Takes(t: Tables, e: Event, tier: TierName, server: int, start: int) {
    match e
    case RemoveServer(id, force, _) => id == server && id in t.servers && (force || t.servers[id].lastPush == 0)
    case Uninstalled(id, token) =>
      id == server && id in t.servers && token == t.servers[id].token && t.servers[id].requestedAt != 0
    case Retention(minuteLimit, hourLimit) => start < if tier.Minute? then minuteLimit else hourLimit
    case DeleteHistory(which, from, to) => from <= start <= to && (which == 0 || which == server)
    case _ => false
  }

  /** The pushes recorded since such a row was last taken. */
  function Since(events: seq<Event>, tier: TierName, server: int, start: int): seq<R.Push> {
    if events == [] then []
    else
      var init, e := events[..|events| - 1], events[|events| - 1];
      var t := Run(EMPTY, init);
      if Takes(t, e, tier, server, start) then [] else Since(init, tier, server, start) + Accepted(t, e)
  }

  /** The samples of one series stamped in lo <= ts < hi. */
  function Stamped(h: seq<R.Push>, server: int, metric: string, lo: int, hi: int): seq<real> {
    if h == [] then []
    else
      var p := h[|h| - 1];
      Stamped(h[..|h| - 1], server, metric, lo, hi)
      + (if p.server == server && metric in p.samples && lo <= p.ts < hi then [p.samples[metric]] else [])
  }

  lemma {:induction false} StampedIsBucket(h: seq<R.Push>, k: R.Key, width: int)
    requires width > 0
    ensures R.Values(h, k.server, k.metric, width, k.start, k.start + 1)
         == if k.start % width == 0 then Stamped(h, k.server, k.metric, k.start, k.start + width) else []
  {
    if h != [] {
      StampedIsBucket(h[..|h| - 1], k, width);
      WindowOf(h[|h| - 1].ts, k.start, width);
    }
  }

  lemma WindowOf(ts: int, start: int, width: int)
    requires width > 0
    ensures start <= R.WindowStart(ts, width) < start + 1 <==> start % width == 0 && start <= ts < start + width
  {
    if start % width == 0 {
      R.BucketOfSample(ts, width, start);
    } else {
      MultipleOf(ts / width, width);
    }
  }

  lemma MultipleOf(q: int, width: int)
    requires width > 0
    ensures (q * width) % width == 0
  {
    R.DivMod(q * width, width);
    var p := q * width / width;
    if p < q { R.MulGap(p, q, width); } else if q < p { R.MulGap(q, p, width); }
  }

  /** What one event does to one row of a tier. */
  lemma RowAfter(t: Tables, e: Event, tier: TierName, k: R.Key)
    ensures var pushes := Accepted(t, e);
            R.Lookup(Rows(Next(t, e), tier), k) ==
            if Takes(t, e, tier, k.server, k.start) then None
            else R.Combine(R.Lookup(Rows(t, tier), k),
                           R.AggOf(R.Values(pushes, k.server, k.metric, Width(tier), k.start, k.start + 1)))
  {
    var pushes := Accepted(t, e);
    if pushes != [] {
      R.OneValue(pushes[0], k.server, k.metric, Width(tier), k.start, k.start + 1);
      R.UpsertCombines(Rows(t, tier), Width(tier), pushes[0], k);
      RecordedRows(t, e, tier);
    } else {
      QuietRow(t, e, tier, k);
    }
  }

  lemma RecordedRows(t: Tables, e: Event, tier: TierName)
    requires Accepted(t, e) != []
    ensures Rows(Next(t, e), tier) == R.Upsert(Rows(t, tier), Width(tier), Accepted(t, e)[0])
  {
  }

  /** An event that records nothing leaves a row or takes it. */
  lemma QuietRow(t: Tables, e: Event, tier: TierName, k: R.Key)
    requires Accepted(t, e) == []
    ensures R.Lookup(Rows(Next(t, e), tier), k) ==
            if Takes(t, e, tier, k.server, k.start) then None else R.Lookup(Rows(t, tier), k)
  {
  }

  lemma {:induction false} RowIsBatch(events: seq<Event>, tier: TierName, k: R.Key)
    ensures R.Lookup(Rows(Run(EMPTY, events), tier), k)
         == R.AggOf(R.Values(Since(events, tier, k.server, k.start), k.server, k.metric, Width(tier), k.start, k.start + 1))
  {
    if events != [] {
      var init, e := events[..|events| - 1], events[|events| - 1];
      var t, before, pushes := Run(EMPTY, init), Since(init, tier, k.server, k.start), Accepted(Run(EMPTY, init), e);
      RowIsBatch(init, tier, k);
      RowAfter(t, e, tier, k);
      R.ValuesConcat(before, pushes, k.server, k.metric, Width(tier), k.start, k.start + 1);
      R.AggOfConcat(R.Values(before, k.server, k.metric, Width(tier), k.start, k.start + 1),
                    R.Values(pushes, k.server, k.metric, Width(tier), k.start, k.start + 1));
    }
  }

  /**
   Over every run of a mother, deletions, retention and reused ids included: a row starts on a multiple of its tier's
   width, exists exactly when a push recorded since it was last taken has a sample stamped within it, and is the
   exact minimum, maximum, sum and count of those samples.
   */
  lemma RowsAreThePushes(events: seq<Event>, tier: TierName, k: R.Key)
    ensures var rows, width := Rows(Run(EMPTY, events), tier), if tier.Minute? then 60 else 3600;
            var vs := Stamped(Since(events, tier, k.server, k.start), k.server, k.metric, k.start, k.start + width);
            && (k in rows <==> k.start % width == 0 && vs != [])
            && (k in rows ==> R.Summarises(rows[k], vs))
  {
    RowIsBatch(events, tier, k);
    StampedIsBucket(Since(events, tier, k.server, k.start), k, Width(tier));
    R.AggOfSummarises(Stamped(Since(events, tier, k.server, k.start), k.server, k.metric, k.start, k.start + Width(tier)));
  }

  /** Nothing takes rows. */
  ghost predicate NoDeletions(events: seq<Event>) {
    forall i :: 0 <= i < |events| ==>
      !events[i].RemoveServer? && !events[i].Uninstalled? && !events[i].Retention? && !events[i].DeleteHistory?
  }

  lemma {:induction false} SinceTheStart(events: seq<Event>, tier: TierName, server: int, start: int)
    requires NoDeletions(events)
    ensures Since(events, tier, server, start) == History(events)
  {
    if events != [] {
      assert !Takes(Run(EMPTY, events[..|events| - 1]), events[|events| - 1], tier, server, start);
      SinceTheStart(events[..|events| - 1], tier, server, start);
    }
  }

  /** While nothing is deleted both tiers are the fold of the pushes as they were sent. */
  lemma TiersAreTheFold(events: seq<Event>)
    requires NoDeletions(events)
    ensures Run(EMPTY, events).minute == R.TierOf(History(events), 60)
    ensures Run(EMPTY, events).hour == R.TierOf(History(events), 3600)
  {
    FoldOf(events, Minute);
    FoldOf(events, Hour);
  }

  lemma FoldOf(events: seq<Event>, tier: TierName)
    requires NoDeletions(events)
    ensures Rows(Run(EMPTY, events), tier) == R.TierOf(History(events), Width(tier))
  {
    var rows, fold := Rows(Run(EMPTY, events), tier), R.TierOf(History(events), Width(tier));
    forall k ensures R.Lookup(rows, k) == R.Lookup(fold, k) {
      RowIsBatch(events, tier, k);
      SinceTheStart(events, tier, k.server, k.start);
      R.FoldIsBatch(History(events), Width(tier), k);
    }
    R.SameTier(rows, fold);
  }

  // ----- The live tail -----

  /** What an event does to the live store; a restart empties it. */
  function Operation(t: Tables, e: Event): seq<L.Op> {
    match e
    case Ingest(id, _, _, samples, now, accepted, cutoff) =>
      if Accepted(t, e) == [] then [] else [L.AddOp(id, now, samples, accepted, cutoff)]
    case RemoveServer(id, force, _) =>
      if id in t.servers && (force || t.servers[id].lastPush == 0) then [L.ForgetOp(id)] else []
    case Uninstalled(id, token) =>
      if id in t.servers && token == t.servers[id].token && t.servers[id].requestedAt != 0 then [L.ForgetOp(id)] else []
    case Read(id, cutoff) => [L.EvictOp(id, cutoff)]
    case SetWindow(cutoff) => [L.WindowOp(cutoff)]
    case _ => []
  }

  /** Those since the mother last started. */
  function Operations(events: seq<Event>): (ops: seq<L.Op>)
    ensures L.AllWellFormed(ops)
  {
    if events == [] then []
    else
      var init, e := events[..|events| - 1], events[|events| - 1];
      if e.Restart? then [] else Operations(init) + Operation(Run(EMPTY, init), e)
  }

  lemma LiveAfter(t: Tables, e: Event)
    ensures var ops := Operation(t, e);
            Next(t, e).live == if e.Restart? then map[] else if ops == [] then t.live else L.Apply(t.live, ops[0])
  {
  }

  lemma {:induction false} LiveIsARun(events: seq<Event>)
    ensures Run(EMPTY, events).live == L.Run(Operations(events))
  {
    if events != [] {
      var init, e := events[..|events| - 1], events[|events| - 1];
      LiveIsARun(init);
      LiveAfter(Run(EMPTY, init), e);
      var before, op := Operations(init), Operation(Run(EMPTY, init), e);
      if op != [] {
        assert (before + op)[..|before + op| - 1] == before;
      } else {
        assert before + op == before;
      }
    }
  }

  /** Over every run the live tail of a series is the log of its recorded points that nothing since has taken. */
  lemma LiveIsTheLog(events: seq<Event>, id: int, m: string)
    ensures var ops := Operations(events);
            L.Held(Run(EMPTY, events).live, id, m) == L.Log(ops, |ops|, id, m)
  {
    LiveIsARun(events);
    L.RefinesLog(Operations(events), id, m);
  }
}
