/** Which versions a server can be targeted at, and what a group rollout makes of its members. */
module GroupRollout {
  import opened Wrappers
  import opened MotherTables
  import NaturalOrder

  const LATEST_ALIAS := "latest"
  const STORAGE_FAILURE := "storage failure"

  type Build = NaturalOrder.Build

  /** A member that was not targeted, and why. */
  datatype Skip = Skip(id: int, reason: string)

  datatype Rollout = Refused(status: int, reason: string) | Rolled(applied: seq<int>, skipped: seq<Skip>)

  /** "<goos>-<goarch>", or nothing until the agent has reported both halves. */
  function Platform(s: Server): string {
    if s.os == "" || s.arch == "" then "" else s.os + "-" + s.arch
  }

  // ----- One server -----

  ghost predicate FirstOf(builds: seq<Build>, version: string, i: int) {
    0 <= i < |builds| && builds[i].version == version && forall j :: 0 <= j < i ==> builds[j].version != version
  }

  ghost predicate Published(builds: seq<Build>, version: string) {
    exists i :: 0 <= i < |builds| && builds[i].version == version
  }

  /** The first build of the version covers the server's platform, as far as the platform is known. */
  ghost predicate Fits(s: Server, version: string, builds: seq<Build>) {
    exists i :: FirstOf(builds, version, i) && (Platform(s) == "" || Platform(s) in builds[i].platforms)
  }

  ghost predicate Acceptable(s: Server, version: string, builds: seq<Build>) {
    version != LATEST_ALIAS && Fits(s, version, builds)
  }

  /** No member could ever accept the version. */
  ghost predicate VersionFault(version: string, builds: seq<Build>) {
    version == LATEST_ALIAS || !Published(builds, version)
  }

  const ALIAS_REASON := "latest is a moving alias, not a version; pick a concrete version"

  function NoBuildFor(s: Server, version: string): (reason: string)
    ensures reason != ""
  {
    "no " + version + " build for " + Platform(s)
  }

  function NotBuilt(version: string): (reason: string)
    ensures reason != ""
  {
    "version " + version + " has not been built on this mother"
  }

  lemma FirstIsUnique(builds: seq<Build>, version: string, i: int, j: int)
    requires FirstOf(builds, version, i) && FirstOf(builds, version, j)
    ensures i == j
  {
  }

  method RejectVersion(s: Server, version: string, builds: seq<Build>) returns (reason: string)
    ensures reason == "" <==> Acceptable(s, version, builds)
    ensures version == LATEST_ALIAS ==> reason == ALIAS_REASON
    ensures version != LATEST_ALIAS && !Published(builds, version) ==> reason == NotBuilt(version)
    ensures !VersionFault(version, builds) && reason != "" ==> reason == NoBuildFor(s, version)
    // In the row's own columns.
    ensures reason == "" ==>
              exists i :: 0 <= i < |builds| && builds[i].version == version
                          && (s.os == "" || s.arch == "" || s.os + "-" + s.arch in builds[i].platforms)
    ensures !VersionFault(version, builds) && reason != "" ==>
              s.os != "" && s.arch != "" && reason == "no " + version + " build for " + (s.os + "-" + s.arch)
  {
    if version == LATEST_ALIAS {
      return ALIAS_REASON;
    }
    for b := 0 to |builds|
      invariant forall j :: 0 <= j < b ==> builds[j].version != version
    {
      if builds[b].version != version {
        continue;
      }
      assert FirstOf(builds, version, b);
      var want := Platform(s);
      if want == "" {
        return "";
      }
      for p := 0 to |builds[b].platforms|
        invariant want !in builds[b].platforms[..p]
      {
        if builds[b].platforms[p] == want {
          return "";
        }
      }
      forall i | FirstOf(builds, version, i) ensures want !in builds[i].platforms {
        FirstIsUnique(builds, version, i, b);
        assert builds[b].platforms[..|builds[b].platforms|] == builds[b].platforms;
      }
      return NoBuildFor(s, version);
    }
    return NotBuilt(version);
  }

  method VersionLevelFault(version: string, builds: seq<Build>) returns (fault: bool)
    ensures fault <==> VersionFault(version, builds)
  {
    if version == LATEST_ALIAS {
      return true;
    }
    for b := 0 to |builds|
      invariant forall j :: 0 <= j < b ==> builds[j].version != version
    {
      if builds[b].version == version {
        return false;
      }
    }
    return true;
  }

  lemma {:induction false} FirstExists(builds: seq<Build>, version: string, n: nat) returns (i: nat)
    requires n < |builds| && builds[n].version == version
    ensures i <= n && FirstOf(builds, version, i)
  {
    i := 0;
    while builds[i].version != version
      invariant i <= n
      invariant forall j :: 0 <= j < i ==> builds[j].version != version
      decreases n - i
    {
      i := i + 1;
    }
  }

  /** The fault belongs to the version: with it no server is acceptable, without it a server of unknown platform is. */
  lemma FaultIsMemberIndependent(s: Server, version: string, builds: seq<Build>)
    ensures VersionFault(version, builds) ==> !Acceptable(s, version, builds)
    ensures !VersionFault(version, builds) && Platform(s) == "" ==> Acceptable(s, version, builds)
  {
    if VersionFault(version, builds) {
      assert forall i :: !FirstOf(builds, version, i) || version == LATEST_ALIAS;
    } else {
      var n :| 0 <= n < |builds| && builds[n].version == version;
      var i := FirstExists(builds, version, n);
    }
  }

  // ----- A group -----

  /** Clearing is never turned down for the version. */
  ghost predicate Takes(s: Server, version: string, builds: seq<Build>) {
    version == "" || Acceptable(s, version, builds)
  }

  /** The servers a rollout would target; `faults` are those whose write fails. */
  ghost function Takers(servers: map<int, Server>, version: string, builds: seq<Build>, faults: set<int>): set<int> {
    set id | id in servers && id !in faults && Takes(servers[id], version, builds)
  }

  ghost function ReasonFor(s: Server, version: string, builds: seq<Build>): (reason: string)
    ensures Takes(s, version, builds) ==> reason == "storage failure"
    ensures !Takes(s, version, builds) ==> reason == NoBuildFor(s, version)
  {
    if Takes(s, version, builds) then STORAGE_FAILURE else NoBuildFor(s, version)
  }

  function Kept(ids: seq<int>, keep: set<int>): seq<int> {
    if ids == [] then []
    else
      var rest, id := Kept(ids[..|ids| - 1], keep), ids[|ids| - 1];
      if id in keep then rest + [id] else rest
  }

  function Dropped(ids: seq<int>, keep: set<int>): seq<int> {
    if ids == [] then []
    else
      var rest, id := Dropped(ids[..|ids| - 1], keep), ids[|ids| - 1];
      if id in keep then rest else rest + [id]
  }

  /** The skipped members with their reasons. */
  ghost predicate Explains(skipped: seq<Skip>, ids: seq<int>, servers: map<int, Server>, version: string, builds: seq<Build>) {
    && |skipped| == |ids|
    && forall i :: 0 <= i < |ids| ==> ids[i] in servers && skipped[i] == Skip(ids[i], ReasonFor(servers[ids[i]], version, builds))
  }

  /** The rows after a rollout: the applied ones are targeted, nothing else is touched. */
  function Rewritten(servers: map<int, Server>, applied: seq<int>, version: string): map<int, Server> {
    map id | id in servers :: if id in applied then Targeted(servers[id], version) else servers[id]
  }

  /** Applied and skipped are the members split in two, each part in the order of the list. */
  lemma {:induction false} Partitions(ids: seq<int>, keep: set<int>)
    ensures multiset(ids) == multiset(Kept(ids, keep)) + multiset(Dropped(ids, keep))
    ensures forall id :: id in Kept(ids, keep) <==> id in ids && id in keep
    ensures forall id :: id in Dropped(ids, keep) <==> id in ids && id !in keep
  {
    if ids != [] {
      var init, id := ids[..|ids| - 1], ids[|ids| - 1];
      Partitions(init, keep);
      assert ids == init + [id];
    }
  }

  /** These places of the list, from front to back, hold these members. */
  ghost predicate Picks(ids: seq<int>, places: seq<int>, members: seq<int>) {
    && |places| == |members|
    && (forall i :: 0 <= i < |places| ==> 0 <= places[i] < |ids| && ids[places[i]] == members[i])
    && forall i, j :: 0 <= i < j < |places| ==> places[i] < places[j]
  }

  lemma PicksOn(ids: seq<int>, id: int, places: seq<int>, members: seq<int>)
    requires Picks(ids, places, members)
    ensures Picks(ids + [id], places, members)
    ensures Picks(ids + [id], places + [|ids|], members + [id])
  {
  }

  /** The applied members stand in the order of the list, and so do the skipped: each at a later place than the one before. */
  lemma {:induction false} PartsInOrder(ids: seq<int>, keep: set<int>) returns (kept: seq<int>, dropped: seq<int>)
    ensures Picks(ids, kept, Kept(ids, keep)) && Picks(ids, dropped, Dropped(ids, keep))
  {
    kept, dropped := [], [];
    if ids != [] {
      var init, id := ids[..|ids| - 1], ids[|ids| - 1];
      kept, dropped := PartsInOrder(init, keep);
      PicksOn(init, id, kept, Kept(init, keep));
      PicksOn(init, id, dropped, Dropped(init, keep));
      assert init + [id] == ids;
      if id in keep {
        kept := kept + [|init|];
      } else {
        dropped := dropped + [|init|];
      }
    }
  }

  /** Every applied member of known platform has a build for it. */
  lemma AppliedHasABuild(servers: map<int, Server>, ids: seq<int>, version: string, builds: seq<Build>, faults: set<int>, id: int)
    requires version != "" && id in Kept(ids, Takers(servers, version, builds, faults))
    ensures id in servers && id in ids
    ensures servers[id].os != "" && servers[id].arch != "" ==>
              exists i :: 0 <= i < |builds| && builds[i].version == version
                          && servers[id].os + "-" + servers[id].arch in builds[i].platforms
  {
    Partitions(ids, Takers(servers, version, builds, faults));
    var i :| FirstOf(builds, version, i) && (Platform(servers[id]) == "" || Platform(servers[id]) in builds[i].platforms);
  }

  /** Clearing reaches every member whose write does not fail. */
  lemma ClearingReachesAll(servers: map<int, Server>, ids: seq<int>, builds: seq<Build>, faults: set<int>, id: int)
    requires id in ids && id in servers
    ensures id in Kept(ids, Takers(servers, "", builds, faults)) <==> id !in faults
  {
    Partitions(ids, Takers(servers, "", builds, faults));
  }

  function Targets(ids: seq<int>, version: string): seq<Event> {
    if ids == [] then [] else Targets(ids[..|ids| - 1], version) + [SetVersion(ids[|ids| - 1], version)]
  }

  lemma OneMoreTarget(t: Tables, ids: seq<int>, version: string, id: int)
    requires id in t.servers
    ensures Next(t.(servers := Rewritten(t.servers, ids, version)), SetVersion(id, version))
         == t.(servers := Rewritten(t.servers, ids + [id], version))
  {
    var before, after := Rewritten(t.servers, ids, version), Rewritten(t.servers, ids + [id], version);
    assert before[id := Targeted(before[id], version)] == after by {
      assert Targeted(Targeted(t.servers[id], version), version) == Targeted(t.servers[id], version);
    }
  }

  /** A rollout is a run of single-server targets: whatever every run keeps, it keeps. */
  lemma {:induction false} RolloutIsARun(t: Tables, ids: seq<int>, version: string)
    requires forall id :: id in ids ==> id in t.servers
    ensures Run(t, Targets(ids, version)) == t.(servers := Rewritten(t.servers, ids, version))
  {
    if ids == [] {
      RewriteNothing(t.servers, version);
    } else {
      var init, id := ids[..|ids| - 1], ids[|ids| - 1];
      RolloutIsARun(t, init, version);
      var events := Targets(init, version);
      assert (events + [SetVersion(id, version)])[..|events|] == events;
      OneMoreTarget(t, init, version, id);
      assert ids == init + [id];
    }
  }

  // ----- The listing -----

  /** ORDER BY name: nobody is listed before somebody of a smaller name. */
  ghost predicate ByName(servers: map<int, Server>, ids: seq<int>) {
    && (forall i :: 0 <= i < |ids| ==> ids[i] in servers)
    && forall i, j :: 0 <= i < j < |ids| ==> !NaturalOrder.LexLess(servers[ids[j]].name, servers[ids[i]].name)
  }

  ghost predicate Distinct(ids: seq<int>) {
    forall i, j :: 0 <= i < j < |ids| ==> ids[i] != ids[j]
  }

  method InsertByName(servers: map<int, Server>, ids: seq<int>, id: int) returns (longer: seq<int>)
    requires ByName(servers, ids) && Distinct(ids) && id in servers && id !in ids
    ensures ByName(servers, longer) && Distinct(longer)
    ensures forall k :: k in longer <==> k in ids || k == id
  {
    var name, p := servers[id].name, 0;
    while p < |ids| && !NaturalOrder.LexLess(name, servers[ids[p]].name)
      invariant p <= |ids|
      invariant forall i :: 0 <= i < p ==> !NaturalOrder.LexLess(name, servers[ids[i]].name)
    {
      p := p + 1;
    }
    forall q | p <= q < |ids| ensures !NaturalOrder.LexLess(servers[ids[q]].name, name) {
      LaterIsNotBefore(servers, ids, name, p, q);
    }
    longer := ids[..p] + [id] + ids[p..];
    assert ids == ids[..p] + ids[p..];
    InsertedIsSorted(servers, ids, id, p, longer);
  }

  lemma LaterIsNotBefore(servers: map<int, Server>, ids: seq<int>, name: string, p: nat, q: nat)
    requires ByName(servers, ids) && p <= q < |ids| && NaturalOrder.LexLess(name, servers[ids[p]].name)
    ensures !NaturalOrder.LexLess(servers[ids[q]].name, name)
  {
    if NaturalOrder.LexLess(servers[ids[q]].name, name) {
      NaturalOrder.LexTransitive(servers[ids[q]].name, name, servers[ids[p]].name);
      NaturalOrder.LexTrichotomy(servers[ids[p]].name, servers[ids[p]].name);
    }
  }

  lemma InsertedIsSorted(servers: map<int, Server>, ids: seq<int>, id: int, p: nat, longer: seq<int>)
    requires ByName(servers, ids) && Distinct(ids) && id in servers && id !in ids && p <= |ids|
    requires longer == ids[..p] + [id] + ids[p..]
    requires forall i :: 0 <= i < p ==> !NaturalOrder.LexLess(servers[id].name, servers[ids[i]].name)
    requires forall q :: p <= q < |ids| ==> !NaturalOrder.LexLess(servers[ids[q]].name, servers[id].name)
    ensures ByName(servers, longer) && Distinct(longer)
  {
    forall i | 0 <= i < |longer| ensures longer[i] in servers {
      assert i != p ==> longer[i] == ids[if i < p then i else i - 1];
    }
    forall i, j | 0 <= i < j < |longer|
      ensures longer[i] != longer[j] && !NaturalOrder.LexLess(servers[longer[j]].name, servers[longer[i]].name)
    {
      var a, b := if i < p then i else i - 1, if j < p then j else j - 1;
      if i == p {
        assert longer[j] == ids[b];
      } else if j == p {
        assert longer[i] == ids[a];
      } else {
        assert longer[i] == ids[a] && longer[j] == ids[b];
      }
    }
  }

  // ----- One more member -----

  lemma KeptOne(ids: seq<int>, i: int, keep: set<int>)
    requires 0 <= i < |ids|
    ensures Kept(ids[..i + 1], keep) == Kept(ids[..i], keep) + (if ids[i] in keep then [ids[i]] else [])
    ensures Dropped(ids[..i + 1], keep) == Dropped(ids[..i], keep) + (if ids[i] in keep then [] else [ids[i]])
  {
    assert ids[..i + 1][..i] == ids[..i];
  }

  lemma ExplainsOne(skipped: seq<Skip>, ids: seq<int>, servers: map<int, Server>, version: string, builds: seq<Build>, id: int)
    requires Explains(skipped, ids, servers, version, builds) && id in servers
    ensures Explains(skipped + [Skip(id, ReasonFor(servers[id], version, builds))], ids + [id], servers, version, builds)
  {
  }

  lemma RewrittenOne(servers: map<int, Server>, applied: seq<int>, version: string, id: int)
    requires id in servers && id !in applied
    ensures Rewritten(servers, applied, version)[id := Targeted(servers[id], version)]
         == Rewritten(servers, applied + [id], version)
  {
  }

  lemma RewriteNothing(servers: map<int, Server>, version: string)
    ensures Rewritten(servers, [], version) == servers
  {
  }

  lemma RewrittenUnique(servers: map<int, Server>, applied: seq<int>, version: string)
    requires UniqueTokens(servers)
    ensures UniqueTokens(Rewritten(servers, applied, version))
  {
  }

  /** A version is turned down for one member, or for the whole request. */
  method Judge(s: Server, version: string, builds: seq<Build>) returns (reason: string, fault: bool)
    ensures reason == "" <==> Takes(s, version, builds)
    ensures reason != "" && !fault ==> reason == ReasonFor(s, version, builds)
    ensures reason != "" ==> (fault <==> VersionFault(version, builds))
    ensures fault ==> version != "" && reason == if version == LATEST_ALIAS then ALIAS_REASON else NotBuilt(version)
    ensures version != "" && VersionFault(version, builds) ==> reason != ""
  {
    reason, fault := "", false;
    if version != "" {
      FaultIsMemberIndependent(s, version, builds);
      reason := RejectVersion(s, version, builds);
      if reason != "" {
        fault := VersionLevelFault(version, builds);
      }
    }
  }
}
