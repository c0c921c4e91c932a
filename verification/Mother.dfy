/**
 The mother's handlers over its tables and its live store, as the API runs them. Each is one atomic call; the
 clock readings, the id SQLite picks and the random token are its parameters.
 */
module Mother {
  import opened Wrappers
  import opened MotherTables
  import opened GroupRollout
  import L = LiveWindow
  import R = Rollups
  import LiveStore
  import NaturalOrder
  import Polling

  const MAX_SAMPLES_PER_PUSH := 256
  const MAX_METRIC_NAME_LEN := 64
  const MAX_SERVER_NAME_LEN := 64
  const DAY := 86400

  datatype IngestRequest = IngestRequest(hb: Heartbeat, samples: map<string, real>)

  datatype Reply = Accepted(desired: string, uninstall: bool) | Denied(status: int)

  // ----- Names -----

  predicate IsLower(c: char) { 'a' <= c <= 'z' }
  predicate MetricChar(c: char) { IsLower(c) || NaturalOrder.IsDigit(c) || c == '_' }
  predicate NameChar(c: char) { IsLower(c) || NaturalOrder.IsDigit(c) || 'A' <= c <= 'Z' || c == '.' || c == '_' || c == '-' }

  /** Dotted, non-empty segments, the first of them starting with a letter. */
  ghost predicate ValidMetric(k: string) {
    && 0 < |k| <= 64 && 'a' <= k[0] <= 'z' && k[|k| - 1] != '.'
    && (forall i :: 0 <= i < |k| ==> 'a' <= k[i] <= 'z' || '0' <= k[i] <= '9' || k[i] == '_' || k[i] == '.')
    && (forall i :: 0 < i < |k| && k[i] == '.' ==> k[i - 1] != '.')
  }

  ghost predicate AllValid(samples: map<string, real>) {
    forall k :: k in samples ==> ValidMetric(k)
  }

  predicate ValidServerName(name: string) {
    0 < |name| <= MAX_SERVER_NAME_LEN && forall i :: 0 <= i < |name| ==> NameChar(name[i])
  }

  /** metricName.MatchString and the length bound, in one pass. */
  method MetricIsValid(k: string) returns (valid: bool)
    ensures valid <==> ValidMetric(k)
  {
    if |k| == 0 || |k| > MAX_METRIC_NAME_LEN || !IsLower(k[0]) {
      return false;
    }
    for i := 1 to |k|
      invariant forall j :: 0 <= j < i ==> MetricChar(k[j]) || k[j] == '.'
      invariant forall j :: 0 < j < i && k[j] == '.' ==> k[j - 1] != '.'
    {
      if k[i] == '.' {
        if k[i - 1] == '.' {
          return false;
        }
      } else if !MetricChar(k[i]) {
        return false;
      }
    }
    return k[|k| - 1] != '.';
  }

  /** Some unacceptable key, whichever the map's iteration meets first. */
  method InvalidMetric(samples: map<string, real>) returns (bad: Option<string>)
    ensures bad.None? ==> forall k :: k in samples ==> ValidMetric(k)
    ensures bad.Some? ==> bad.value in samples && !ValidMetric(bad.value)
  {
    var todo := samples.Keys;
    while todo != {}
      invariant todo <= samples.Keys
      invariant forall k :: k in samples && k !in todo ==> ValidMetric(k)
      decreases todo
    {
      var k := Pick(todo);
      todo := todo - {k};
      var valid := MetricIsValid(k);
      if !valid {
        return Some(k);
      }
    }
    return None;
  }

  // ----- The live store's demand -----

  /** Everything held was stamped no later than the clock. */
  ghost predicate InOrder(s: L.Series, clock: int) {
    forall id :: id in s ==> L.NotBefore(s[id], clock)
  }

  lemma {:induction false} FromIsPart(points: seq<L.Point>, t: int, p: L.Point)
    requires p in L.From(points, t)
    ensures p in points
  {
    if points != [] && p in L.From(points[..|points| - 1], t) {
      FromIsPart(points[..|points| - 1], t, p);
    }
  }

  lemma EvictInOrder(s: L.Series, id: int, cutoff: int, clock: int)
    requires InOrder(s, clock)
    ensures InOrder(L.Evict(s, id, cutoff), clock)
  {
    var u := L.Evict(s, id, cutoff);
    forall k, m, p: L.Point | k in u && m in u[k] && p in u[k][m] ensures p.ts <= clock {
      if k == id {
        FromIsPart(s[id][m], cutoff, p);
      }
    }
  }

  lemma LoadedInOrder(s: L.Series, id: int, ts: int, samples: map<string, real>, accepted: set<string>)
    requires InOrder(s, ts) && accepted <= samples.Keys
    ensures InOrder(L.Loaded(s, id, ts, samples, accepted), ts)
  {
  }

  lemma AddInOrder(s: L.Series, id: int, ts: int, samples: map<string, real>, accepted: set<string>, cutoff: int)
    requires InOrder(s, ts) && accepted <= samples.Keys
    ensures InOrder(L.Add(s, id, ts, samples, accepted, cutoff), ts)
  {
    LoadedInOrder(s, id, ts, samples, accepted);
    EvictInOrder(L.Loaded(s, id, ts, samples, accepted), id, cutoff, ts);
  }

  lemma LaterInOrder(s: L.Series, before: int, after: int)
    requires InOrder(s, before) && before <= after
    ensures InOrder(s, after)
  {
  }

  lemma OneMoreMember(group: int, ids: seq<int>, id: int)
    ensures MembersOf(group, Elements(ids + [id])) == MembersOf(group, Elements(ids)) + {(group, id)}
  {
    assert Elements(ids + [id]) == Elements(ids) + {id};
    var more, fewer := MembersOf(group, Elements(ids) + {id}), MembersOf(group, Elements(ids));
    forall m ensures m in more <==> m in fewer + {(group, id)} {
    }
  }

  /** A push that is to be recorded and whose rollup transaction fails. */
  predicate Loses(row: Server, samples: map<string, real>, now: int, fault: Option<R.Fault>) {
    now > row.lastPush && samples != map[] && fault.Some?
  }

  /** What a push of server `id`, if of any, is answered. */
  ghost function Answer(t: Tables, token: string, req: IngestRequest, id: int, tooSoon: bool, now: int,
                        fault: Option<R.Fault>): Reply
    requires Unknown(t, token) || Authenticates(t, id, token)
  {
    if Unknown(t, token) then Denied(401)
    else if |req.samples| > MAX_SAMPLES_PER_PUSH then Denied(400)
    else if tooSoon then Denied(429)
    else if !AllValid(req.samples) then Denied(400)
    else if Loses(t.servers[id], req.samples, now, fault) then Denied(500)
    else Accepted(t.servers[id].desired, Told(t, id, token) == Some(true))
  }

  /** A known token, a push that is not too large and in time for its server. */
  ghost predicate TakesSlot(t: Tables, token: string, samples: map<string, real>, tooSoon: bool) {
    !Unknown(t, token) && |samples| <= MAX_SAMPLES_PER_PUSH && !tooSoon
  }

  lemma IngestIsAStep(t: Tables, id: int, token: string, hb: Heartbeat, samples: map<string, real>, now: int,
                      accepted: set<string>, cutoff: int)
    requires Authenticates(t, id, token) && accepted <= samples.Keys
    ensures Next(t, Ingest(id, token, hb, samples, now, accepted, cutoff)) == Ingested(t, id, hb, samples, now, accepted, cutoff)
    ensures Told(t, id, token) == Some(t.servers[id].requestedAt != 0)
  {
  }

  /** The ingest step of the polling runs is this handler's, as far as the live tail and last_push go. */
  lemma PollingRunsThisHandler(t: Tables, w: Polling.World, id: int, hb: Heartbeat, samples: map<string, real>,
                               accepted: set<string>)
    requires id in t.servers && w.series == t.live && accepted <= samples.Keys
    requires Polling.LastPush(w.lastPush, id) == t.servers[id].lastPush
    ensures Polling.Allowed(w, id) <==> id !in w.lastAdmitted || w.now - w.lastAdmitted[id] >= 2_000_000_000
    ensures var u, v := Ingested(t, id, hb, samples, L.Unix(w.now), accepted, L.Cutoff(w.now, w.window)),
                        Polling.Ingest(w, id, samples, accepted);
            v.series == u.live && Polling.LastPush(v.lastPush, id) == u.servers[id].lastPush
  {
  }

  /** What a poll of the polling runs adds is what this store answers it. */
  lemma PollingPollsThisStore(w: Polling.World)
    ensures var v := Polling.Step(w, Polling.Poll);
            && v.series == L.Evict(w.series, w.server, L.Cutoff(w.now, w.window))
            && v.held == w.held + LiveStore.Newer(w.series, w.server, w.metric, Polling.Newest(w.held), L.Cutoff(w.now, w.window))
  {
    L.HeldAfterEvict(w.series, w.server, L.Cutoff(w.now, w.window), w.server, w.metric);
  }

  // ----- The API -----

  class Mother {
    var servers: map<int, Server>
    var groups: map<int, string>
    var members: set<(int, int)>
    const rollups: R.RollupTables
    const live: LiveStore.Store
    /** allowPush's lastPush: when each server id was last let through. */
    var lastPush: map<int, int>
    /** The latest unix second a push was stamped with. */
    ghost var clock: int

    ghost function State(): Tables
      reads this, rollups, live
    {
      Tables(servers, groups, members, rollups.minute, rollups.hour, live.held)
    }

    /** The live store's memory is nobody else's. */
    ghost predicate Valid()
      reads this, rollups, live, live.owner.Keys
    {
      && live.Valid() && this !in live.owner && rollups !in live.owner
      && InOrder(live.held, clock) && UniqueTokens(servers)
    }

    ghost function Memory(): set<object>
      reads live
    {
      live.owner.Keys
    }

    constructor (window: int)
      ensures Valid() && fresh(rollups) && fresh(live) && State() == EMPTY && lastPush == map[]
    {
      servers, groups, members, lastPush, clock := map[], map[], {}, map[], 0;
      rollups := new R.RollupTables();
      live := new LiveStore.Store(window);
    }

    /** bearerServer's lookup. */
    method ServerByToken(token: string) returns (id: Option<int>)
      requires Valid()
      ensures id.Some? ==> Authenticates(State(), id.value, token)
      ensures id.None? <==> Unknown(State(), token)
    {
      if k :| k in servers && servers[k].token == token {
        assert Authenticates(State(), k, token);
        return Some(k);
      }
      return None;
    }

    predicate TooSoon(id: int, instant: int)
      reads this
    {
      id in lastPush && instant - lastPush[id] < Polling.MIN_PUSH_GAP
    }

    /** allowPush: at most one push per server per gap. */
    method AllowPush(id: int, instant: int) returns (ok: bool)
      modifies this`lastPush
      ensures ok <==> !old(TooSoon(id, instant))
      ensures ok <==> id !in old(lastPush) || instant - old(lastPush)[id] >= 2_000_000_000
      ensures lastPush == if ok then old(lastPush)[id := instant] else old(lastPush)
    {
      if id in lastPush && instant - lastPush[id] < Polling.MIN_PUSH_GAP {
        return false;
      }
      lastPush := lastPush[id := instant];
      return true;
    }

    /** What handleIngest checks before it writes: the token, the size, the pace and the names, in this order. */
    method Admit(token: string, samples: map<string, real>, instant: int) returns (status: int, id: int)
      requires Valid()
      modifies this`lastPush
      ensures Valid()
      ensures !Unknown(State(), token) ==> Authenticates(State(), id, token)
      ensures status == if Unknown(State(), token) then 401
                        else if |samples| > MAX_SAMPLES_PER_PUSH then 400
                        else if old(TooSoon(id, instant)) then 429
                        else if !AllValid(samples) then 400
                        else 200
      // A refused metric name has used up the server's slot all the same.
      ensures lastPush == if TakesSlot(old(State()), token, samples, old(TooSoon(id, instant)))
                          then old(lastPush)[id := instant] else old(lastPush)
    {
      var found := ServerByToken(token);
      if found.None? {
        return 401, 0;
      }
      id := found.value;
      if |samples| > MAX_SAMPLES_PER_PUSH {
        return 400, id;
      }
      var allowed := AllowPush(id, instant);
      if !allowed {
        return 429, id;
      }
      var bad := InvalidMetric(samples);
      if bad.Some? {
        return 400, id;
      }
      return 200, id;
    }

    /** POST /v1/ingest. `id` is the server the push was taken for, `accepted` what the live store let in. */
    method HandleIngest(token: string, req: IngestRequest, now: int, instant: int, fault: Option<R.Fault>)
      returns (reply: Reply, ghost id: int, ghost accepted: set<string>)
      requires Valid() && now >= clock
      modifies this, rollups, live`series, live`held, live`owner, Memory()
      ensures Valid()
      ensures !Unknown(old(State()), token) ==> Authenticates(old(State()), id, token)
      ensures reply == Answer(old(State()), token, req, id, old(TooSoon(id, instant)), now, fault)
      ensures lastPush == if TakesSlot(old(State()), token, req.samples, old(TooSoon(id, instant)))
                          then old(lastPush)[id := instant] else old(lastPush)
      ensures reply.Denied? ==> State() == old(State())
      ensures reply.Accepted? ==>
                accepted <= req.samples.Keys
                && State() == Next(old(State()), Ingest(id, token, req.hb, req.samples, now, accepted,
                                                        L.Cutoff(instant, live.window)))
      ensures reply.Accepted? && now > old(servers)[id].lastPush ==>
                L.Admits(L.Metrics(old(live.held), id), req.samples, accepted)
    {
      accepted := {};
      var status, serverID := Admit(token, req.samples, instant);
      id := serverID;
      if status == 200 {
        reply, accepted := TakeIn(serverID, token, req, now, instant, fault);
      } else {
        reply := Denied(status);
      }
    }

    /** The rest of handleIngest, once the push is admitted. */
    method TakeIn(id: int, ghost token: string, req: IngestRequest, now: int, instant: int, fault: Option<R.Fault>)
      returns (reply: Reply, ghost accepted: set<string>)
      requires Valid() && now >= clock && Authenticates(State(), id, token)
      modifies this`servers, this`clock, rollups, live`series, live`held, live`owner, Memory()
      ensures Valid() && accepted <= req.samples.Keys
      ensures reply == if Loses(old(servers)[id], req.samples, now, fault) then Denied(500)
                       else Accepted(old(servers)[id].desired, old(servers)[id].requestedAt != 0)
      ensures State() == if Loses(old(servers)[id], req.samples, now, fault) then old(State())
                         else Next(old(State()), Ingest(id, token, req.hb, req.samples, now, accepted, L.Cutoff(instant, live.window)))
      ensures reply.Accepted? && now > old(servers)[id].lastPush ==>
                L.Admits(L.Metrics(old(live.held), id), req.samples, accepted)
    {
      var srv := servers[id];
      var ok;
      ok, accepted := Record(id, srv.lastPush, req.samples, now, instant, fault);
      if !ok {
        return Denied(500), accepted;
      }
      TouchRow(id, req.hb, now);
      IngestIsAStep(old(State()), id, token, req.hb, req.samples, now, accepted, L.Cutoff(instant, live.window));
      return Accepted(srv.desired, srv.requestedAt != 0), accepted;
    }

    /** TouchServer. */
    method TouchRow(id: int, hb: Heartbeat, now: int)
      requires Valid() && id in servers
      modifies this`servers
      ensures Valid()
      ensures servers == old(servers)[id := Touch(old(servers)[id], hb, now)]
    {
      TouchKeepsUnique(servers, id, hb, now);
      servers := servers[id := Touch(servers[id], hb, now)];
    }

    /** The push into both tiers and the live tail, if it is newer than the last one recorded. */
    method Record(serverID: int, last: int, samples: map<string, real>, now: int, instant: int, fault: Option<R.Fault>)
      returns (ok: bool, ghost accepted: set<string>)
      requires Valid() && now >= clock
      modifies this`clock, rollups, live`series, live`held, live`owner, Memory()
      ensures Valid() && clock == now
      ensures accepted <= samples.Keys && (ok && now > last ==> L.Admits(L.Metrics(old(live.held), serverID), samples, accepted))
      ensures ok <==> now <= last || samples == map[] || fault.None?
      ensures State() == if ok && now > last
                         then Recorded(old(State()), serverID, samples, now, accepted, L.Cutoff(instant, live.window))
                         else old(State())
      ensures ok && now > last ==>
                rollups.minute == R.Upsert(old(rollups.minute), 60, R.Push(serverID, now, samples))
                && rollups.hour == R.Upsert(old(rollups.hour), 3600, R.Push(serverID, now, samples))
    {
      LaterInOrder(live.held, clock, now);
      ok, clock, accepted := true, now, {};
      if now > last {
        ok := rollups.ApplySamples(serverID, now, samples, fault);
        if !ok {
          return;
        }
        accepted := FeedLive(serverID, samples, now, instant);
      }
    }

    /** The live tail's part of a push. */
    method FeedLive(serverID: int, samples: map<string, real>, now: int, instant: int) returns (ghost accepted: set<string>)
      requires Valid() && clock == now
      modifies live`series, live`held, live`owner, Memory()
      ensures Valid() && L.Admits(L.Metrics(old(live.held), serverID), samples, accepted)
      ensures live.held == L.Add(old(live.held), serverID, now, samples, accepted, L.Cutoff(instant, live.window))
    {
      ghost var before := live.held;
      accepted := live.Add(serverID, now, samples, instant);
      AddInOrder(before, serverID, now, samples, accepted, L.Cutoff(instant, live.window));
    }

    /** POST /api/servers: SQLite hands out any id not in use, one that was in use before included. */
    method HandleAddServer(name: string, token: string, id: int) returns (status: int)
      requires Valid() && id !in servers
      modifies this`servers
      ensures Valid()
      ensures status == if !ValidServerName(name) then 400 else if NameTaken(old(servers), name, token) then 409 else 200
      ensures State() == if status == 400 then old(State()) else Next(old(State()), AddServer(id, name, token))
      ensures status == 400 <==>
                || !(0 < |name| <= 64)
                || exists i :: 0 <= i < |name| && !('a' <= name[i] <= 'z' || 'A' <= name[i] <= 'Z' || '0' <= name[i] <= '9'
                                                    || name[i] in ['.', '_', '-'])
      ensures status == 409 <==>
                && status != 400
                && exists k :: k in old(servers) && (old(servers)[k].name == name || old(servers)[k].token == token)
      ensures status == 200 ==> servers == old(servers)[id := Server(name, token, "", "", "", 0, "", "", 0, "")]
    {
      if !ValidServerName(name) {
        return 400;
      }
      StepKeepsUnique(State(), AddServer(id, name, token));
      if NameTaken(servers, name, token) {
        return 409;
      }
      servers := servers[id := NewServer(name, token)];
      return 200;
    }

    /** DELETE /api/servers/{id}: two-phase unless forced or never pushed. */
    method HandleDeleteServer(id: int, force: bool, now: int) returns (status: int, state: string)
      requires Valid()
      modifies this, rollups, live`series, live`held, live`owner, Memory()
      ensures Valid() && lastPush == old(lastPush)
      ensures State() == Next(old(State()), RemoveServer(id, force, now))
      ensures status == if id in old(servers) then 200 else 404
      ensures state == "uninstalling" <==> id in servers
      ensures state == "deleted" <==> status == 200 && id !in servers
      ensures id in old(servers) ==> (id in servers <==> !force && old(servers)[id].lastPush != 0)
    {
      if id !in servers {
        return 404, "";
      }
      if !force && servers[id].lastPush != 0 {
        var found := RequestUninstall(id, now);
        return 200, "uninstalling";
      }
      DropServer(id);
      return 200, "deleted";
    }

    /** The store's UPDATE ... CASE. */
    method RequestUninstall(id: int, now: int) returns (found: bool)
      requires Valid()
      modifies this`servers
      ensures Valid() && (found <==> id in old(servers))
      ensures servers == if found then old(servers)[id := Request(old(servers)[id], now)] else old(servers)
    {
      if id !in servers {
        return false;
      }
      if servers[id].requestedAt == 0 {
        servers := servers[id := servers[id].(requestedAt := now)];
      }
      return true;
    }

    /** deleteServer: the row and everything keyed on its id, in SQLite and in memory both. */
    method DropServer(id: int)
      requires Valid()
      modifies this, rollups, live`series, live`held
      ensures Valid() && clock == old(clock) && lastPush == old(lastPush)
      ensures State() == Deleted(old(State()), id)
    {
      DeleteRows(id);
      live.Forget(id);
    }

    /** The store's transaction. */
    method DeleteRows(id: int)
      modifies this`servers, this`members, rollups
      ensures servers == old(servers) - {id} && members == WithoutServer(old(members), id)
      ensures rollups.minute == MotherTables.DropServer(old(rollups.minute), id)
      ensures rollups.hour == MotherTables.DropServer(old(rollups.hour), id)
    {
      servers := servers - {id};
      rollups.minute := map k | k in rollups.minute && k.server != id :: rollups.minute[k];
      rollups.hour := map k | k in rollups.hour && k.server != id :: rollups.hour[k];
      members := set m | m in members && m.1 != id;
    }

    /** POST /v1/uninstalled: the token authenticates, only a standing request authorises. */
    method HandleUninstalled(token: string) returns (status: int, ghost id: int)
      requires Valid()
      modifies this, rollups, live`series, live`held, live`owner, Memory()
      ensures Valid() && lastPush == old(lastPush)
      ensures status == 401 <==> Unknown(old(State()), token)
      ensures status != 401 ==> Authenticates(old(State()), id, token)
      ensures status != 401 ==> status == if old(servers)[id].requestedAt == 0 then 409 else 200
      ensures State() == if status == 401 then old(State()) else Next(old(State()), Uninstalled(id, token))
    {
      id := 0;
      var found := ServerByToken(token);
      if found.None? {
        return 401, id;
      }
      id := found.value;
      if servers[found.value].requestedAt == 0 {
        return 409, id;
      }
      DropServer(found.value);
      return 200, id;
    }

    method SetDesiredVersion(id: int, version: string) returns (found: bool)
      modifies this`servers
      ensures found <==> id in old(servers)
      ensures servers == if found then old(servers)[id := Targeted(old(servers)[id], version)] else old(servers)
    {
      if id !in servers {
        return false;
      }
      servers := servers[id := servers[id].(desired := version, updateError := "")];
      return true;
    }

    /** EnforceRetention: each tier loses what is older than its own limit. */
    method EnforceRetention(now: int, minuteDays: int, hourDays: int)
      requires Valid()
      modifies rollups
      ensures Valid()
      ensures State() == Next(old(State()), Retention(now - minuteDays * 86400, now - hourDays * 86400))
    {
      var minuteLimit, hourLimit := now - minuteDays * DAY, now - hourDays * DAY;
      rollups.minute := map k | k in rollups.minute && k.start >= minuteLimit :: rollups.minute[k];
      rollups.hour := map k | k in rollups.hour && k.start >= hourLimit :: rollups.hour[k];
    }

    /** Replaces the membership wholesale; an id listed twice counts once and one nobody has is stored. */
    method SetGroupServers(group: int, ids: seq<int>) returns (found: bool)
      requires Valid()
      modifies this`members
      ensures Valid() && (found <==> group in groups)
      ensures State() == Next(old(State()), SetMembers(group, Elements(ids)))
    {
      if group !in groups {
        return false;
      }
      ReplaceMembers(group, ids);
      return true;
    }

    /** The DELETE and the INSERT OR IGNORE. */
    method ReplaceMembers(group: int, ids: seq<int>)
      modifies this`members
      ensures members == WithoutGroup(old(members), group) + MembersOf(group, Elements(ids))
    {
      members := set m | m in members && m.0 != group;
      ghost var others := members;
      for i := 0 to |ids|
        invariant members == others + MembersOf(group, Elements(ids[..i]))
      {
        members := members + {(group, ids[i])};
        OneMoreMember(group, ids[..i], ids[i]);
        assert ids[..i + 1] == ids[..i] + [ids[i]];
      }
      assert ids[..|ids|] == ids;
    }

    method DeleteGroup(group: int) returns (found: bool)
      requires Valid()
      modifies this`groups, this`members
      ensures Valid() && (found <==> group in old(groups))
      ensures State() == Next(old(State()), RemoveGroup(group))
    {
      if group !in groups {
        return false;
      }
      members := set m | m in members && m.0 != group;
      groups := groups - {group};
      return true;
    }

    /** Does the list hold exactly the group's members that exist, each once and by name? */
    ghost predicate Lists(listed: seq<int>, group: int)
      reads this
    {
      && ByName(servers, listed) && Distinct(listed)
      && (forall id :: id in listed <==> id in servers && (group, id) in members)
    }

    /** ServersInGroup's join and its order. */
    method ServersInGroup(group: int) returns (listed: seq<int>)
      ensures Lists(listed, group)
    {
      listed := [];
      var todo := servers.Keys;
      while todo != {}
        invariant todo <= servers.Keys
        invariant ByName(servers, listed) && Distinct(listed)
        invariant forall id :: id in listed <==> id in servers && id !in todo && (group, id) in members
        decreases todo
      {
        var id := Pick(todo);
        todo := todo - {id};
        if (group, id) in members {
          listed := InsertByName(servers, listed, id);
        }
      }
    }

    /** PUT /api/groups/{id}/version. `faults` are the members whose write fails. */
    method HandleSetGroupVersion(group: int, version: string, builds: seq<Build>, faults: set<int>)
      returns (result: Rollout, ghost listed: seq<int>)
      requires Valid()
      modifies this`servers
      ensures Valid()
      ensures group !in groups ==> result == Refused(404, "group not found")
      ensures group in groups ==> old(Lists(listed, group))
      ensures group in groups ==>
                (result.Refused? <==> version != "" && listed != [] && VersionFault(version, builds))
      ensures group in groups && result.Refused? ==>
                result == Refused(400, if version == LATEST_ALIAS then ALIAS_REASON else NotBuilt(version))
      ensures result.Refused? ==> servers == old(servers)
      ensures result.Rolled? ==>
                var keep := Takers(old(servers), version, builds, faults);
                && result.applied == Kept(listed, keep)
                && Explains(result.skipped, Dropped(listed, keep), old(servers), version, builds)
                && servers == Rewritten(old(servers), result.applied, version)
    {
      listed := [];
      if group !in groups {
        return Refused(404, "group not found"), listed;
      }
      var found := ServersInGroup(group);
      listed := found;
      ghost var before := servers;
      result := Roll(found, version, builds, faults);
      if result.Rolled? {
        RewrittenUnique(before, result.applied, version);
      }
    }

    /** The loop over the members. */
    method Roll(found: seq<int>, version: string, builds: seq<Build>, faults: set<int>) returns (result: Rollout)
      requires Distinct(found) && forall id :: id in found ==> id in servers
      modifies this`servers
      ensures result.Refused? <==> version != "" && found != [] && VersionFault(version, builds)
      ensures result.Refused? ==>
                result == Refused(400, if version == LATEST_ALIAS then ALIAS_REASON else NotBuilt(version))
                && servers == old(servers)
      ensures result.Rolled? ==>
                var keep := Takers(old(servers), version, builds, faults);
                && result.applied == Kept(found, keep)
                && Explains(result.skipped, Dropped(found, keep), old(servers), version, builds)
                && servers == Rewritten(old(servers), result.applied, version)
    {
      var applied, skipped: seq<Skip> := [], [];
      ghost var before := servers;
      ghost var keep := Takers(before, version, builds, faults);
      RewriteNothing(before, version);
      for i := 0 to |found|
        invariant servers == Rewritten(before, applied, version)
        invariant applied == Kept(found[..i], keep)
        invariant Explains(skipped, Dropped(found[..i], keep), before, version, builds)
        invariant i > 0 ==> version == "" || !VersionFault(version, builds)
        invariant i == 0 ==> servers == before
      {
        var id := found[i];
        KeptOne(found, i, keep);
        Partitions(found[..i], keep);
        assert id in before && id !in found[..i];
        var srv := servers[id];
        assert srv == before[id];
        var reason, fault := Judge(srv, version, builds);
        if reason != "" {
          if fault {
            return Refused(400, reason);
          }
          ExplainsOne(skipped, Dropped(found[..i], keep), before, version, builds, id);
          skipped := skipped + [Skip(id, reason)];
          continue;
        }
        if id in faults {
          ExplainsOne(skipped, Dropped(found[..i], keep), before, version, builds, id);
          skipped := skipped + [Skip(id, STORAGE_FAILURE)];
          continue;
        }
        RewrittenOne(before, applied, version, id);
        var written := SetDesiredVersion(id, version);
        applied := applied + [id];
      }
      assert found[..|found|] == found;
      return Rolled(applied, skipped);
    }
  }
}
