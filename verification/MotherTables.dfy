/**
 What the mother keeps per server, in SQLite and in memory, and what each handler does to it: as values.
 A handler is one step; a request it refuses leaves everything as it was.
 */
module MotherTables {
  import opened Wrappers
  import L = LiveWindow
  import R = Rollups

  const ALL_SERVERS := 0

  /** The columns of a servers row that decide something. Both instants are unix seconds, 0 for never. */
  datatype Server = Server(
    name: string, token: string, os: string, arch: string, agentVersion: string, lastPush: int,
    desired: string, updateError: string, requestedAt: int, uninstallError: string)

  datatype Heartbeat = Heartbeat(agentVersion: string, os: string, arch: string, updateError: string, uninstallError: string)

  /** Members are (group id, server id). */
  datatype Tables = Tables(
    servers: map<int, Server>, groups: map<int, string>, members: set<(int, int)>,
    minute: R.Tier, hour: R.Tier, live: L.Series)

  /** `accepted` and `cutoff` are what the live store's cap let in and what its clock and window came to. */
  datatype Event =
    | AddServer(id: int, name: string, token: string)
    | Ingest(id: int, token: string, hb: Heartbeat, samples: map<string, real>, now: int, accepted: set<string>, cutoff: int)
    | RemoveServer(id: int, force: bool, now: int)
    | Uninstalled(id: int, token: string)
    | SetVersion(id: int, version: string)
    | CreateGroup(group: int, name: string)
    | RemoveGroup(group: int)
    | SetMembers(group: int, ids: set<int>)
    | Read(id: int, cutoff: int)
    | SetWindow(cutoff: int)
    | Retention(minuteLimit: int, hourLimit: int)
    | DeleteHistory(server: int, from: int, to: int)
    | Restart

  const EMPTY := Tables(map[], map[], {}, map[], map[], map[])

  // ----- Rows -----

  function NewServer(name: string, token: string): Server {
    Server(name, token, "", "", "", 0, "", "", 0, "")
  }

  /** Both columns are UNIQUE. */
  predicate NameTaken(servers: map<int, Server>, name: string, token: string) {
    exists id :: id in servers && (servers[id].name == name || servers[id].token == token)
  }

  predicate GroupNamed(groups: map<int, string>, name: string) {
    exists group :: group in groups && groups[group] == name
  }

  /** TouchServer: what rides every push is written verbatim, what rides the first only when it is there. */
  function Touch(s: Server, hb: Heartbeat, now: int): Server {
    s.(agentVersion := hb.agentVersion, lastPush := now, updateError := hb.updateError,
    uninstallError := hb.uninstallError,
    os := if hb.os != "" then hb.os else s.os,
    arch := if hb.arch != "" then hb.arch else s.arch)
  }

  /** RequestUninstall's CASE. */
  function Request(s: Server, now: int): Server {
    if s.requestedAt == 0 then s.(requestedAt := now) else s
  }

  function Targeted(s: Server, version: string): Server {
    s.(desired := version, updateError := "")
  }

  // ----- Tables -----

  function DropServer(t: R.Tier, id: int): R.Tier {
    map k | k in t && k.server != id :: t[k]
  }

  function DropBefore(t: R.Tier, limit: int): R.Tier {
    map k | k in t && k.start >= limit :: t[k]
  }

  function DropBetween(t: R.Tier, server: int, from: int, to: int): R.Tier {
    map k | k in t && !(from <= k.start <= to && (server == ALL_SERVERS || k.server == server)) :: t[k]
  }

  function WithoutServer(members: set<(int, int)>, id: int): set<(int, int)> {
    set m | m in members && m.1 != id
  }

  function WithoutGroup(members: set<(int, int)>, group: int): set<(int, int)> {
    set m | m in members && m.0 != group
  }

  function Elements(ids: seq<int>): set<int> {
    set id | id in ids
  }

  function MembersOf(group: int, ids: set<int>): set<(int, int)> {
    set id | id in ids :: (group, id)
  }

  /** deleteServer: the store's transaction, then the live store's Forget. */
  function Deleted(t: Tables, id: int): Tables {
    Tables(t.servers - {id}, t.groups, WithoutServer(t.members, id), DropServer(t.minute, id), DropServer(t.hour, id),
           t.live - {id})
  }

  /** A push written to its destinations: both tiers, then the live tail. */
  function Recorded(t: Tables, id: int, samples: map<string, real>, now: int, accepted: set<string>, cutoff: int): Tables
    requires accepted <= samples.Keys
  {
    var push := R.Push(id, now, samples);
    t.(minute := R.Upsert(t.minute, R.MINUTE_WIDTH, push), hour := R.Upsert(t.hour, R.HOUR_WIDTH, push),
    live := L.Add(t.live, id, now, samples, accepted, cutoff))
  }

  function Ingested(t: Tables, id: int, hb: Heartbeat, samples: map<string, real>, now: int,
                    accepted: set<string>, cutoff: int): Tables
    requires id in t.servers && accepted <= samples.Keys
  {
    var u := if now > t.servers[id].lastPush then Recorded(t, id, samples, now, accepted, cutoff) else t;
    u.(servers := t.servers[id := Touch(t.servers[id], hb, now)])
  }

  /** Is the delete final at once? */
  predicate HardDelete(s: Server, force: bool) {
    force || s.lastPush == 0
  }

  function Removed(t: Tables, id: int, force: bool, now: int): Tables
    requires id in t.servers
  {
    if HardDelete(t.servers[id], force) then Deleted(t, id)
    else t.(servers := t.servers[id := Request(t.servers[id], now)])
  }

  predicate Authenticates(t: Tables, id: int, token: string) {
    id in t.servers && t.servers[id].token == token
  }

  /** What a push is told about its own removal; nothing when its token is not this server's. */
  function Told(t: Tables, id: int, token: string): Option<bool> {
    if Authenticates(t, id, token) then Some(t.servers[id].requestedAt != 0) else None
  }

  ghost predicate Unknown(t: Tables, token: string) {
    forall id :: !Authenticates(t, id, token)
  }

  function Next(t: Tables, e: Event): Tables {
    match e
    case AddServer(id, name, token) =>
      if id in t.servers || NameTaken(t.servers, name, token) then t
      else t.(servers := t.servers[id := NewServer(name, token)])
    case Ingest(id, token, hb, samples, now, accepted, cutoff) =>
      if Authenticates(t, id, token) && accepted <= samples.Keys
      then Ingested(t, id, hb, samples, now, accepted, cutoff) else t
    case RemoveServer(id, force, now) => if id in t.servers then Removed(t, id, force, now) else t
    case Uninstalled(id, token) =>
      if Authenticates(t, id, token) && t.servers[id].requestedAt != 0 then Deleted(t, id) else t
    case SetVersion(id, version) =>
      if id in t.servers then t.(servers := t.servers[id := Targeted(t.servers[id], version)]) else t
    case CreateGroup(group, name) =>
      if group in t.groups || GroupNamed(t.groups, name) then t else t.(groups := t.groups[group := name])
    case RemoveGroup(group) =>
      if group in t.groups then t.(groups := t.groups - {group}, members := WithoutGroup(t.members, group)) else t
    case SetMembers(group, ids) =>
      if group in t.groups then t.(members := WithoutGroup(t.members, group) + MembersOf(group, ids)) else t
    case Read(id, cutoff) => t.(live := L.Evict(t.live, id, cutoff))
    case SetWindow(cutoff) => t.(live := L.EvictAll(t.live, cutoff))
    case Retention(minuteLimit, hourLimit) =>
      t.(minute := DropBefore(t.minute, minuteLimit), hour := DropBefore(t.hour, hourLimit))
    case DeleteHistory(server, from, to) =>
      t.(minute := DropBetween(t.minute, server, from, to), hour := DropBetween(t.hour, server, from, to))
    case Restart => t.(live := map[])
  }

  function Run(t: Tables, events: seq<Event>): Tables {
    if events == [] then t else Next(Run(t, events[..|events| - 1]), events[|events| - 1])
  }

  // ----- Keys -----

  /** A token opens one row at most. */
  ghost predicate UniqueTokens(servers: map<int, Server>) {
    forall a, b :: a in servers && b in servers && servers[a].token == servers[b].token ==> a == b
  }

  lemma StepKeepsUnique(t: Tables, e: Event)
    requires UniqueTokens(t.servers)
    ensures UniqueTokens(Next(t, e).servers)
  {
  }

  lemma TouchKeepsUnique(servers: map<int, Server>, id: int, hb: Heartbeat, now: int)
    requires UniqueTokens(servers) && id in servers
    ensures UniqueTokens(servers[id := Touch(servers[id], hb, now)])
  {
  }

  // ----- No inheritance across id reuse -----

  /** No rollup row of either tier and no live point belongs to the id. */
  ghost predicate NoHistory(t: Tables, id: int) {
    && (forall k :: k in t.minute ==> k.server != id)
    && (forall k :: k in t.hour ==> k.server != id)
    && id !in t.live
  }

  ghost predicate NoMembership(t: Tables, id: int) {
    forall m :: m in t.members ==> m.1 != id
  }

  /** Everything keyed on an id belongs to a row that exists; memberships name a group that exists. */
  ghost predicate Keyed(t: Tables) {
    && (forall k :: k in t.minute ==> k.server in t.servers)
    && (forall k :: k in t.hour ==> k.server in t.servers)
    && (forall id :: id in t.live ==> id in t.servers)
    && (forall m :: m in t.members ==> m.0 in t.groups)
  }

  /** Memberships pointing at nothing. */
  function Dangling(t: Tables): set<(int, int)> {
    set m | m in t.members && m.1 !in t.servers
  }

  lemma UpsertKeys(t: R.Tier, width: int, p: R.Push, k: R.Key)
    requires width > 0 && k in R.Upsert(t, width, p)
    ensures k in t || k.server == p.server
  {
  }

  lemma LiveKeys(s: L.Series, id: int, ts: int, samples: map<string, real>, accepted: set<string>, cutoff: int, k: int)
    requires accepted <= samples.Keys && k in L.Add(s, id, ts, samples, accepted, cutoff)
    ensures k in s || k == id
  {
  }

  lemma IngestKeepsKeyed(t: Tables, id: int, hb: Heartbeat, samples: map<string, real>, now: int,
                         accepted: set<string>, cutoff: int)
    requires Keyed(t) && id in t.servers && accepted <= samples.Keys
    ensures Keyed(Ingested(t, id, hb, samples, now, accepted, cutoff))
    ensures Dangling(Ingested(t, id, hb, samples, now, accepted, cutoff)) == Dangling(t)
  {
    var u := Ingested(t, id, hb, samples, now, accepted, cutoff);
    var push := R.Push(id, now, samples);
    assert u.servers.Keys == t.servers.Keys;
    forall k | k in u.minute ensures k.server in t.servers {
      if k !in t.minute { UpsertKeys(t.minute, R.MINUTE_WIDTH, push, k); }
    }
    forall k | k in u.hour ensures k.server in t.servers {
      if k !in t.hour { UpsertKeys(t.hour, R.HOUR_WIDTH, push, k); }
    }
    forall k | k in u.live ensures k in t.servers {
      if k !in t.live { LiveKeys(t.live, id, now, samples, accepted, cutoff, k); }
    }
  }

  /** No key was added and no row or group taken away. */
  lemma ShrunkKeepsKeyed(t: Tables, u: Tables)
    requires Keyed(t) && t.servers.Keys <= u.servers.Keys && t.groups.Keys <= u.groups.Keys && u.members == t.members
    requires u.minute.Keys <= t.minute.Keys && u.hour.Keys <= t.hour.Keys && u.live.Keys <= t.live.Keys
    ensures Keyed(u)
    ensures u.servers.Keys == t.servers.Keys ==> Dangling(u) == Dangling(t)
  {
  }

  lemma DeletedKeepsKeyed(t: Tables, id: int)
    requires Keyed(t)
    ensures Keyed(Deleted(t, id)) && Dangling(Deleted(t, id)) == WithoutServer(Dangling(t), id)
  {
    var u := Deleted(t, id);
    forall m ensures m in Dangling(u) <==> m in WithoutServer(Dangling(t), id) {
    }
  }

  lemma GroupStepKeepsKeyed(t: Tables, e: Event)
    requires Keyed(t) && (e.RemoveGroup? || e.SetMembers?)
    ensures Keyed(Next(t, e)) && Dangling(Next(t, e)) == DanglingAfter(t, e)
  {
    var u := Next(t, e);
    forall m ensures m in Dangling(u) <==> m in DanglingAfter(t, e) {
    }
  }

  lemma NewRowKeepsKeyed(t: Tables, id: int, s: Server)
    requires Keyed(t)
    ensures var u := t.(servers := t.servers[id := s]); Keyed(u) && Dangling(u) == WithoutServer(Dangling(t), id)
  {
    var u := t.(servers := t.servers[id := s]);
    ShrunkKeepsKeyed(t, u);
    forall m ensures m in Dangling(u) <==> m in WithoutServer(Dangling(t), id) {
    }
  }

  lemma AddServerKeepsKeyed(t: Tables, e: Event, u: Tables)
    requires Keyed(t) && e.AddServer? && u == Next(t, e)
    ensures Keyed(u) && Dangling(u) == DanglingAfter(t, e)
  {
    if e.id in t.servers {
      NothingDanglesAt(t, e.id);
    } else {
      NewRowKeepsKeyed(t, e.id, NewServer(e.name, e.token));
    }
  }

  lemma TouchedKeepsKeyed(t: Tables, id: int, s: Server)
    requires Keyed(t) && id in t.servers
    ensures var u := t.(servers := t.servers[id := s]); Keyed(u) && Dangling(u) == Dangling(t)
  {
    var u := t.(servers := t.servers[id := s]);
    assert u.servers.Keys == t.servers.Keys;
    ShrunkKeepsKeyed(t, u);
  }

  /** A row that exists has no membership pointing at nothing. */
  lemma NothingDanglesAt(t: Tables, id: int)
    requires id in t.servers
    ensures WithoutServer(Dangling(t), id) == Dangling(t)
  {
  }

  /** What a step makes of the memberships pointing at nothing: only SetGroupServers makes any. */
  function DanglingAfter(t: Tables, e: Event): set<(int, int)> {
    match e
    case SetMembers(group, ids) =>
      if group in t.groups then WithoutGroup(Dangling(t), group) + MembersOf(group, ids - t.servers.Keys) else Dangling(t)
    case RemoveGroup(group) => WithoutGroup(Dangling(t), group)
    case AddServer(id, name, token) =>
      if NameTaken(t.servers, name, token) then Dangling(t) else WithoutServer(Dangling(t), id)
    case _ => Dangling(t)
  }

  /** Steps about one existing row: it goes, or is written in place. */
  lemma RowStepKeepsKeyed(t: Tables, e: Event, u: Tables)
    requires Keyed(t) && (e.RemoveServer? || e.Uninstalled? || e.SetVersion?) && u == Next(t, e)
    ensures Keyed(u) && Dangling(u) == Dangling(t)
  {
    if e.id in t.servers {
      NothingDanglesAt(t, e.id);
      DeletedKeepsKeyed(t, e.id);
      match e
      case RemoveServer(id, force, now) => TouchedKeepsKeyed(t, id, Request(t.servers[id], now));
      case SetVersion(id, version) => TouchedKeepsKeyed(t, id, Targeted(t.servers[id], version));
      case _ =>
    }
  }

  lemma IngestStepKeepsKeyed(t: Tables, e: Event, u: Tables)
    requires Keyed(t) && e.Ingest? && u == Next(t, e)
    ensures Keyed(u) && Dangling(u) == Dangling(t)
  {
    if Authenticates(t, e.id, e.token) && e.accepted <= e.samples.Keys {
      IngestKeepsKeyed(t, e.id, e.hb, e.samples, e.now, e.accepted, e.cutoff);
    }
  }

  lemma OtherStepKeepsKeyed(t: Tables, e: Event, u: Tables)
    requires Keyed(t) && u == Next(t, e)
    requires e.CreateGroup? || e.Read? || e.SetWindow? || e.Retention? || e.DeleteHistory? || e.Restart?
    ensures Keyed(u) && Dangling(u) == Dangling(t)
  {
    ShrunkKeepsKeyed(t, u);
  }

  lemma StepIsKeyed(t: Tables, e: Event, u: Tables)
    requires Keyed(t) && u == Next(t, e)
    ensures Keyed(u) && Dangling(u) == DanglingAfter(t, e)
  {
    if e.AddServer? {
      AddServerKeepsKeyed(t, e, u);
    } else if e.Ingest? {
      IngestStepKeepsKeyed(t, e, u);
    } else if e.RemoveServer? || e.Uninstalled? || e.SetVersion? {
      RowStepKeepsKeyed(t, e, u);
    } else if e.RemoveGroup? || e.SetMembers? {
      GroupStepKeepsKeyed(t, e);
    } else {
      OtherStepKeepsKeyed(t, e, u);
    }
  }

  /** Unconditionally: every step keeps history keyed on live rows and memberships on live groups. */
  lemma StepKeepsKeyed(t: Tables, e: Event)
    requires Keyed(t)
    ensures Keyed(Next(t, e))
  {
    StepIsKeyed(t, e, Next(t, e));
  }

  lemma DanglingIsExact(t: Tables, e: Event)
    requires Keyed(t)
    ensures Dangling(Next(t, e)) == DanglingAfter(t, e)
  {
    StepIsKeyed(t, e, Next(t, e));
  }

  lemma {:induction false} RunKeepsKeyed(events: seq<Event>)
    ensures Keyed(Run(EMPTY, events))
  {
    if events != [] {
      RunKeepsKeyed(events[..|events| - 1]);
      StepKeepsKeyed(Run(EMPTY, events[..|events| - 1]), events[|events| - 1]);
    }
  }

  /** The events of a run up to number i. */
  function Before(events: seq<Event>, i: nat): Tables
    requires i <= |events|
  {
    Run(EMPTY, events[..i])
  }

  /** Every SetGroupServers of the run names servers that exist when it does. */
  ghost predicate NamesExisting(events: seq<Event>) {
    forall i :: 0 <= i < |events| && events[i].SetMembers? ==> events[i].ids <= Before(events, i).servers.Keys
  }

  lemma {:induction false} NothingDangles(events: seq<Event>)
    requires NamesExisting(events)
    ensures Dangling(Run(EMPTY, events)) == {}
  {
    if events != [] {
      var n := |events| - 1;
      assert forall i :: 0 <= i < n ==> events[..n][..i] == events[..i];
      NothingDangles(events[..n]);
      RunKeepsKeyed(events[..n]);
      assert events[n].SetMembers? ==> events[n].ids <= Before(events, n).servers.Keys;
      DanglingIsExact(Run(EMPTY, events[..n]), events[n]);
    }
  }

  /** A server added to any run, on a reused id or not, starts without history; and without membership if none was given early. */
  lemma NoInheritance(events: seq<Event>, id: int, name: string, token: string)
    requires id !in Run(EMPTY, events).servers && !NameTaken(Run(EMPTY, events).servers, name, token)
    ensures var t := Next(Run(EMPTY, events), AddServer(id, name, token));
            && id in t.servers && NoHistory(t, id)
            && (NamesExisting(events) ==> NoMembership(t, id))
  {
    RunKeepsKeyed(events);
    var t := Run(EMPTY, events);
    if NamesExisting(events) {
      NothingDangles(events);
      assert forall m :: m in t.members && m.1 !in t.servers ==> m in Dangling(t);
    }
  }

  /** What it does inherit otherwise: exactly the memberships that named its id before it existed. */
  lemma InheritsTheDangling(t: Tables, id: int, name: string, token: string, group: int)
    requires id !in t.servers && !NameTaken(t.servers, name, token)
    ensures (group, id) in Next(t, AddServer(id, name, token)).members <==> (group, id) in Dangling(t)
  {
  }

  /** Per call: SetGroupServers leaves nothing dangling if and only if the ids it names exist. */
  lemma DanglesExactly(t: Tables, group: int, ids: set<int>)
    requires Keyed(t) && group in t.groups && Dangling(t) == {}
    ensures Dangling(Next(t, SetMembers(group, ids))) == {} <==> ids <= t.servers.Keys
  {
    DanglingIsExact(t, SetMembers(group, ids));
    var made := MembersOf(group, ids - t.servers.Keys);
    forall id | id in ids ensures made == {} ==> id in t.servers {
      assert id !in t.servers ==> (group, id) in made;
    }
    assert ids <= t.servers.Keys ==> ids - t.servers.Keys == {};
  }

  /** ListGroups' server_count: memberships, whether they point at a server or not. */
  function ServerCount(t: Tables, group: int): nat {
    |Of(t.members, group)|
  }

  function Of(members: set<(int, int)>, group: int): set<(int, int)> {
    set m | m in members && m.0 == group
  }

  lemma {:induction false} PairsCount(group: int, ids: seq<int>)
    requires forall i, j :: 0 <= i < j < |ids| ==> ids[i] != ids[j]
    ensures |MembersOf(group, Elements(ids))| == |ids|
  {
    if ids == [] {
      assert MembersOf(group, Elements(ids)) == {};
    } else {
      var init, id := ids[..|ids| - 1], ids[|ids| - 1];
      PairsCount(group, init);
      assert ids == init + [id];
      var before, after := MembersOf(group, Elements(init)), MembersOf(group, Elements(ids));
      forall m ensures m in after <==> m in before + {(group, id)} {
        assert Elements(ids) == Elements(init) + {id};
      }
      assert after == before + {(group, id)} && (group, id) !in before;
    }
  }

  /** A listing shows at once what points at nothing: its count exceeds the members by exactly that many. */
  lemma CountShowsDangling(t: Tables, group: int, listed: seq<int>)
    requires forall i, j :: 0 <= i < j < |listed| ==> listed[i] != listed[j]
    requires forall id :: id in listed <==> id in t.servers && (group, id) in t.members
    ensures ServerCount(t, group) == |listed| + |Of(Dangling(t), group)|
    ensures ServerCount(t, group) == |listed| <==> Of(Dangling(t), group) == {}
  {
    var shown, hidden := MembersOf(group, Elements(listed)), Of(Dangling(t), group);
    PairsCount(group, listed);
    forall m ensures m in Of(t.members, group) <==> m in shown + hidden {
      if m in t.members && m.0 == group {
        var id := m.1;
        assert m == (group, id) && (group, id) in t.members;
        assert id in t.servers <==> id in listed;
      }
    }
    assert Of(t.members, group) == shown + hidden && shown !! hidden;
  }

  /** A group, on a reused id or not, starts empty: unconditionally. */
  lemma NewGroupIsEmpty(events: seq<Event>, group: int, name: string)
    requires group !in Run(EMPTY, events).groups
    ensures forall m :: m in Next(Run(EMPTY, events), CreateGroup(group, name)).members ==> m.0 != group
  {
    RunKeepsKeyed(events);
  }

  /** A push whose row is deleted after it was authenticated leaves rows behind unless it is empty: pushes have to be one step. */
  lemma RacingPushOutlivesItsRow(t: Tables, id: int, samples: map<string, real>, now: int, accepted: set<string>, cutoff: int)
    requires accepted <= samples.Keys
    ensures NoHistory(Recorded(Deleted(t, id), id, samples, now, accepted, cutoff), id) <==> samples == map[]
  {
    var u, push := Deleted(t, id), R.Push(id, now, samples);
    if samples == map[] {
      R.UpsertNothing(u.minute, R.MINUTE_WIDTH, push);
      R.UpsertNothing(u.hour, R.HOUR_WIDTH, push);
    } else {
      var m :| m in samples.Keys;
      assert R.Key(id, m, R.WindowStart(now, R.MINUTE_WIDTH)) in R.Upsert(u.minute, R.MINUTE_WIDTH, push);
    }
  }
}
