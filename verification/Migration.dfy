/** The schema migrations of mother/store/migrate.go over what they read and change. */
module Migration {
  import opened Wrappers
  import opened Rollups

  /** A rollup row as it was stored before sums: an average and its count. */
  datatype AvgRow = AvgRow(min: real, max: real, avg: real, cnt: int)

  datatype TierTable = Averages(averages: map<Key, AvgRow>) | Sums(rows: Tier)

  /** `servers` maps each server to its desired_version; it means something once the column exists. */
  datatype Data = Data(
    columns: set<string>, servers: map<int, string>, settings: map<string, string>,
    minute: TierTable, hour: TierTable, samples: bool, groups: bool, motherUpdate: bool)

  const DESIRED := "desired_version"
  const RAW_RETENTION := "retention_raw_hours"
  const MIGRATIONS: nat := 6

  function Rebuilt(row: AvgRow): Agg {
    Agg(row.min, row.max, row.avg * row.cnt as real, row.cnt)
  }

  function RebuildTier(t: TierTable): TierTable {
    match t
    case Sums(_) => t
    case Averages(averages) => Sums(map k | k in averages :: Rebuilt(averages[k]))
  }

  /** ALTER TABLE ADD COLUMN, a column already there being success; a new column holds its default. */
  function AddColumn(d: Data, column: string): Data {
    if column in d.columns then d
    else
      var servers := if column == DESIRED then map id | id in d.servers :: "" else d.servers;
      d.(columns := d.columns + {column}, servers := servers)
  }

  function AddFirstColumns(d: Data): Data {
    AddColumn(AddColumn(AddColumn(AddColumn(d, "capabilities"), "arch"), DESIRED), "update_error")
  }

  /** The fleet-wide target moves onto every server that has none; None is a failed statement. */
  function RetireFleetTarget(d: Data): Option<Data> {
    if DESIRED !in d.settings then Some(d)
    else
      var global := d.settings[DESIRED];
      var settings := d.settings - {DESIRED};
      if global == "" then Some(d.(settings := settings))
      else if DESIRED !in d.columns then None
      else Some(d.(settings := settings,
                   servers := map id | id in d.servers :: if d.servers[id] == "" then global else d.servers[id]))
  }

  function RollupsToSum(d: Data): Data {
    d.(minute := RebuildTier(d.minute), hour := RebuildTier(d.hour), samples := false,
    settings := d.settings - {RAW_RETENTION})
  }

  /** The entry at one index of the migrations list; None when its transaction fails by itself. */
  function Entry(index: nat, d: Data): Option<Data>
    requires index < MIGRATIONS
  {
    if index == 0 then Some(AddFirstColumns(d))
    else if index == 1 then RetireFleetTarget(d)
    else if index == 2 then Some(RollupsToSum(d))
    else if index == 3 then Some(d.(groups := true))
    else if index == 4 then Some(AddColumn(AddColumn(d, "uninstall_requested_at"), "uninstall_error"))
    else Some(d.(motherUpdate := true))
  }

  /** Exactly the entries from..to applied in order. */
  function Entries(d: Data, from: nat, to: nat): Option<Data>
    requires from <= to <= MIGRATIONS
  {
    if from == to then Some(d)
    else
      var before := Entries(d, from, to - 1);
      if before.None? then None else Entry(to - 1, before.value)
  }

  class Database {
    var userVersion: nat
    var data: Data

    constructor (userVersion: nat, data: Data)
      ensures this.userVersion == userVersion && this.data == data
    {
      this.userVersion, this.data := userVersion, data;
    }

    /** applyMigration: the entry and the version bump commit together or not at all. */
    method ApplyMigration(index: nat, crash: bool) returns (ok: bool)
      requires index < MIGRATIONS
      modifies this
      ensures ok <==> !crash && Entry(index, old(data)).Some?
      ensures ok ==> Some(data) == Entry(index, old(data)) && userVersion == index + 1
      ensures !ok ==> data == old(data) && userVersion == old(userVersion)
    {
      var run := Entry(index, data);
      if run.None? || crash {
        return false;
      }
      data, userVersion := run.value, index + 1;
      return true;
    }

    /**
     migrate. `crashAt` is the index whose transaction is interrupted, if any.
     Whatever happens, the version counts exactly the entries the data has been through.
     */
    method Migrate(crashAt: Option<nat>) returns (applied: nat, ok: bool)
      modifies this
      ensures userVersion == old(userVersion) + applied
      ensures applied > 0 ==> userVersion <= MIGRATIONS
      ensures old(userVersion) <= MIGRATIONS ==>
                userVersion <= MIGRATIONS && Entries(old(data), old(userVersion), userVersion) == Some(data)
      ensures old(userVersion) >= MIGRATIONS ==> ok && data == old(data) && applied == 0
      ensures ok ==> userVersion >= MIGRATIONS
      ensures !ok ==> userVersion < MIGRATIONS && (Entry(userVersion, data).None? || crashAt == Some(userVersion))
    {
      applied := 0;
      var i := userVersion;
      while i < MIGRATIONS
        invariant i == userVersion == old(userVersion) + applied
        invariant old(userVersion) <= MIGRATIONS ==>
          i <= MIGRATIONS && Entries(old(data), old(userVersion), i) == Some(data)
        invariant old(userVersion) >= MIGRATIONS ==> data == old(data) && applied == 0
      {
        ok := ApplyMigration(i, crashAt == Some(i));
        if !ok {
          return;
        }
        applied := applied + 1;
        i := i + 1;
      }
      ok := true;
    }
  }

  // ----- Crashes -----

  lemma {:induction false} EntriesSplit(d: Data, from: nat, mid: nat, to: nat)
    requires from <= mid <= to <= MIGRATIONS
    ensures Entries(d, from, mid).Some? ==> Entries(d, from, to) == Entries(Entries(d, from, mid).value, mid, to)
    ensures Entries(d, from, to).Some? ==> Entries(d, from, mid).Some?
  {
    if mid < to { EntriesSplit(d, from, mid, to - 1); }
  }

  /** A run of starts, each going on from the version it finds and interrupted at the version in `stops`. */
  ghost predicate Interrupted(d: Data, from: nat, stops: seq<nat>, end: Data)
    decreases |stops|
  {
    if stops == [] then end == d
    else
      && from <= stops[0] <= MIGRATIONS && Entries(d, from, stops[0]).Some?
      && Interrupted(Entries(d, from, stops[0]).value, stops[0], stops[1..], end)
  }

  function Reached(from: nat, stops: seq<nat>): nat
    decreases |stops|
  {
    if stops == [] then from else Reached(stops[0], stops[1..])
  }

  /** However many starts were interrupted, the state is the one an uninterrupted run has at that version. */
  lemma {:induction false} InterruptedRunsAgree(d: Data, from: nat, stops: seq<nat>, end: Data)
    requires from <= MIGRATIONS && Interrupted(d, from, stops, end)
    ensures from <= Reached(from, stops) <= MIGRATIONS
    ensures Entries(d, from, Reached(from, stops)) == Some(end)
    decreases |stops|
  {
    if stops != [] {
      InterruptedRunsAgree(Entries(d, from, stops[0]).value, stops[0], stops[1..], end);
      EntriesSplit(d, from, stops[0], Reached(from, stops));
    }
  }

  // ----- Totality and replay -----

  /** What a database at version k is known to look like, whatever it started as. */
  ghost predicate MigratedTo(k: nat, d: Data) {
    && (k >= 1 ==> {"capabilities", "arch", DESIRED, "update_error"} <= d.columns)
    && (k >= 2 ==> DESIRED !in d.settings)
    && (k >= 3 ==> d.minute.Sums? && d.hour.Sums? && !d.samples && RAW_RETENTION !in d.settings)
    && (k >= 4 ==> d.groups)
    && (k >= 5 ==> {"uninstall_requested_at", "uninstall_error"} <= d.columns)
    && (k >= 6 ==> d.motherUpdate)
  }

  ghost predicate Migrated(d: Data) {
    MigratedTo(MIGRATIONS, d)
  }

  lemma EntryReaches(d: Data, index: nat)
    requires index < MIGRATIONS && MigratedTo(index, d)
    ensures Entry(index, d).Some? && MigratedTo(index + 1, Entry(index, d).value)
  {
    if index == 0 {
      ColumnsAdded(d, ["capabilities", "arch", DESIRED, "update_error"]);
    }
  }

  lemma ColumnsAdded(d: Data, cs: seq<string>)
    requires |cs| == 4
    ensures {cs[0], cs[1], cs[2], cs[3]} <= AddColumn(AddColumn(AddColumn(AddColumn(d, cs[0]), cs[1]), cs[2]), cs[3]).columns
  {
    var one := AddColumn(d, cs[0]);
    var two := AddColumn(one, cs[1]);
    var three := AddColumn(two, cs[2]);
    assert cs[0] in one.columns && cs[0] in two.columns && cs[0] in three.columns;
    assert cs[1] in two.columns && cs[1] in three.columns;
  }

  /** From an unversioned database no entry fails by itself, and each version brings what its entries add. */
  lemma {:induction false} NeverFails(d: Data, k: nat)
    requires k <= MIGRATIONS
    ensures Entries(d, 0, k).Some? && MigratedTo(k, Entries(d, 0, k).value)
  {
    if k > 0 {
      NeverFails(d, k - 1);
      EntryReaches(Entries(d, 0, k - 1).value, k - 1);
    }
  }

  lemma EntryKeepsMigrated(d: Data, index: nat)
    requires Migrated(d) && index < MIGRATIONS
    ensures Entry(index, d) == Some(d)
  {
    assert d.settings - {RAW_RETENTION} == d.settings;
  }

  /** Replaying from any rewound version leaves a migrated database exactly as it is. */
  lemma {:induction false} ReplayIsHarmless(d: Data, from: nat, to: nat)
    requires Migrated(d) && from <= to <= MIGRATIONS
    ensures Entries(d, from, to) == Some(d)
  {
    if from < to {
      ReplayIsHarmless(d, from, to - 1);
      EntryKeepsMigrated(d, to - 1);
    }
  }

  /** A server's own target: nothing until the column exists. */
  function Own(d: Data, id: int): string
    requires id in d.servers
  {
    if DESIRED in d.columns then d.servers[id] else ""
  }

  /** The fleet-wide target of the old setting, nothing without one. */
  function Fleet(d: Data): string {
    if DESIRED in d.settings then d.settings[DESIRED] else ""
  }

  /** Adding any column, the target's own included, changes nobody's target. */
  lemma AddKeepsOwn(d: Data, column: string, id: int)
    requires id in d.servers
    ensures var e := AddColumn(d, column);
            && id in e.servers && Own(e, id) == Own(d, id) && e.settings == d.settings
            && e.columns == d.columns + {column}
  {
    assert column in d.columns ==> d.columns + {column} == d.columns;
  }

  lemma FirstColumnsKeepOwn(d: Data, id: int)
    requires id in d.servers
    ensures var e := AddFirstColumns(d);
            && id in e.servers && Own(e, id) == Own(d, id) && e.settings == d.settings && DESIRED in e.columns
  {
    AddKeepsOwn(d, "capabilities", id);
    var d1 := AddColumn(d, "capabilities");
    AddKeepsOwn(d1, "arch", id);
    var d2 := AddColumn(d1, "arch");
    AddKeepsOwn(d2, DESIRED, id);
    AddKeepsOwn(AddColumn(d2, DESIRED), "update_error", id);
  }

  lemma LaterEntriesKeepOwn(d: Data, index: nat, id: int)
    requires 2 <= index < MIGRATIONS && id in d.servers && DESIRED in d.columns
    ensures var e := Entry(index, d);
            e.Some? && id in e.value.servers && e.value.servers[id] == d.servers[id] && DESIRED in e.value.columns
  {
    if index == 4 {
      AddKeepsOwn(d, "uninstall_requested_at", id);
      AddKeepsOwn(AddColumn(d, "uninstall_requested_at"), "uninstall_error", id);
    }
  }

  /**
   A rollout already started survives the move, from whatever schema: every server ends with its own target if
   it had one, otherwise with the fleet's.
   */
  lemma {:induction false} TargetsSurvive(d: Data, id: int, k: nat)
    requires id in d.servers && 2 <= k <= MIGRATIONS
    ensures var migrated := Entries(d, 0, k);
            && migrated.Some? && id in migrated.value.servers && DESIRED in migrated.value.columns
            && migrated.value.servers[id] == if Own(d, id) != "" then Own(d, id) else Fleet(d)
  {
    OneMoreEntry(d, k - 1);
    if k == 2 {
      FirstColumnsKeepOwn(d, id);
      OneMoreEntry(d, k - 2);
      TargetMoves(AddFirstColumns(d), id);
    } else {
      TargetsSurvive(d, id, k - 1);
      LaterEntriesKeepOwn(Entries(d, 0, k - 1).value, k - 1, id);
    }
  }

  lemma OneMoreEntry(d: Data, n: nat)
    requires n < MIGRATIONS
    ensures Entries(d, 0, n + 1) == if Entries(d, 0, n).None? then None else Entry(n, Entries(d, 0, n).value)
    ensures n == 0 ==> Entries(d, 0, n) == Some(d)
  {
  }

  lemma TargetMoves(d: Data, id: int)
    requires id in d.servers && DESIRED in d.columns
    ensures var e := RetireFleetTarget(d);
            && e.Some? && id in e.value.servers && e.value.columns == d.columns
            && e.value.servers[id] == if d.servers[id] != "" then d.servers[id] else Fleet(d)
  {
  }

  // ----- What becomes of everything else -----

  /** Row by row: minimum, maximum and count as they were, the sum what the average stood for. Sums stay as they are. */
  ghost predicate RowsKept(before: TierTable, after: TierTable) {
    match before
    case Sums(_) => after == before
    case Averages(averages) =>
      && after.Sums? && after.rows.Keys == averages.Keys
      && forall k :: k in averages ==>
           && after.rows[k].min == averages[k].min && after.rows[k].max == averages[k].max
           && after.rows[k].cnt == averages[k].cnt && after.rows[k].sum == averages[k].avg * averages[k].cnt as real
  }

  lemma EntryKeepsRows(d: Data, index: nat)
    requires index < MIGRATIONS && Entry(index, d).Some?
    ensures var e := Entry(index, d).value;
            if index == 2 then RowsKept(d.minute, e.minute) && RowsKept(d.hour, e.hour)
            else e.minute == d.minute && e.hour == d.hour
  {
  }

  /**
   From any version to any later one: each tier has exactly the rows it had, kept row by row once the entry that
   stores sums is among those applied and untouched otherwise.
   */
  lemma {:induction false} RowsSurvive(d: Data, from: nat, to: nat)
    requires from <= to <= MIGRATIONS && Entries(d, from, to).Some?
    ensures var e := Entries(d, from, to).value;
            if from <= 2 < to then RowsKept(d.minute, e.minute) && RowsKept(d.hour, e.hour)
            else e.minute == d.minute && e.hour == d.hour
  {
    if from < to {
      RowsSurvive(d, from, to - 1);
      EntryKeepsRows(Entries(d, from, to - 1).value, to - 1);
    }
  }

  /** A database without versions gets through them all with its rows. */
  lemma RowsSurviveFromTheStart(d: Data, k: nat)
    requires 3 <= k <= MIGRATIONS
    ensures var migrated := Entries(d, 0, k);
            migrated.Some? && RowsKept(d.minute, migrated.value.minute) && RowsKept(d.hour, migrated.value.hour)
  {
    NeverFails(d, k);
    RowsSurvive(d, 0, k);
  }

  /** What the old writer stored of a history becomes what the new one would have stored of it, in both tiers. */
  lemma HistorySurvives(d: Data, h: seq<Push>, k: nat)
    requires 3 <= k <= MIGRATIONS
    requires d.minute == Averages(AveragesOf(h, 60)) && d.hour == Averages(AveragesOf(h, 3600))
    ensures var migrated := Entries(d, 0, k);
            migrated.Some? && migrated.value.minute == Sums(TierOf(h, 60)) && migrated.value.hour == Sums(TierOf(h, 3600))
  {
    RowsSurviveFromTheStart(d, k);
    var migrated := Entries(d, 0, k).value;
    RowsAreTheFold(h, 60, migrated.minute);
    RowsAreTheFold(h, 3600, migrated.hour);
  }

  lemma RowsAreTheFold(h: seq<Push>, width: int, after: TierTable)
    requires width > 0 && RowsKept(Averages(AveragesOf(h, width)), after)
    ensures after == Sums(TierOf(h, width))
  {
    var t := TierOf(h, width);
    assert after.rows.Keys == t.Keys;
    forall k | k in t ensures after.rows[k] == t[k] {
      BucketIsExact(h, width, k);
      RebuildInverts(t[k]);
    }
    assert after.rows == t;
  }

  /** Only the two settings that are retired go, each with its own entry. */
  lemma {:induction false} SettingsSurvive(d: Data, from: nat, to: nat, s: string)
    requires from <= to <= MIGRATIONS && Entries(d, from, to).Some?
    ensures var e := Entries(d, from, to).value;
            && (s in e.settings <==>
                 && s in d.settings
                 && !(from <= 1 < to && s == "desired_version") && !(from <= 2 < to && s == "retention_raw_hours"))
            && (s in e.settings ==> e.settings[s] == d.settings[s])
  {
    if from < to {
      SettingsSurvive(d, from, to - 1, s);
      var e := Entries(d, from, to - 1).value;
      if to == 1 {
        FirstColumns(e);
      } else if to == 5 {
        LateColumns(e);
      }
    }
  }

  lemma {:induction false} ColumnsGrow(d: Data, from: nat, to: nat, column: string)
    requires from <= to <= MIGRATIONS && Entries(d, from, to).Some?
    ensures column in Entries(d, from, to).value.columns <==>
              || column in d.columns
              || (from <= 0 < to && column in {"capabilities", "arch", "desired_version", "update_error"})
              || (from <= 4 < to && column in {"uninstall_requested_at", "uninstall_error"})
  {
    if from < to {
      ColumnsGrow(d, from, to - 1, column);
      var e := Entries(d, from, to - 1).value;
      if to == 1 {
        FirstColumns(e);
      } else if to == 5 {
        LateColumns(e);
      }
    }
  }

  /** The servers and the tables of a database that entries from..to have been through. */
  lemma {:induction false} NothingElseChanges(d: Data, from: nat, to: nat)
    requires from <= to <= MIGRATIONS && Entries(d, from, to).Some?
    ensures var e := Entries(d, from, to).value;
            && e.servers.Keys == d.servers.Keys
            && e.samples == (d.samples && !(from <= 2 < to))
            && e.groups == (d.groups || from <= 3 < to) && e.motherUpdate == (d.motherUpdate || from <= 5 < to)
  {
    if from < to {
      NothingElseChanges(d, from, to - 1);
      var e := Entries(d, from, to - 1).value;
      if to == 1 {
        FirstColumns(e);
      } else if to == 5 {
        LateColumns(e);
      }
    }
  }

  lemma FirstColumns(d: Data)
    ensures var e := AddFirstColumns(d);
            && e.columns == d.columns + {"capabilities", "arch", "desired_version", "update_error"}
            && e == d.(columns := e.columns, servers := e.servers) && e.servers.Keys == d.servers.Keys
  {
    var one := AddColumn(d, "capabilities");
    var two := AddColumn(one, "arch");
    var three := AddColumn(two, DESIRED);
    OneColumn(d, "capabilities");
    OneColumn(one, "arch");
    OneColumn(two, DESIRED);
    OneColumn(three, "update_error");
  }

  lemma LateColumns(d: Data)
    ensures var e := AddColumn(AddColumn(d, "uninstall_requested_at"), "uninstall_error");
            && e.columns == d.columns + {"uninstall_requested_at", "uninstall_error"}
            && e == d.(columns := e.columns, servers := e.servers) && e.servers.Keys == d.servers.Keys
  {
    OneColumn(d, "uninstall_requested_at");
    OneColumn(AddColumn(d, "uninstall_requested_at"), "uninstall_error");
  }

  lemma OneColumn(d: Data, column: string)
    ensures var e := AddColumn(d, column);
            && e.columns == d.columns + {column}
            && e == d.(columns := e.columns, servers := e.servers) && e.servers.Keys == d.servers.Keys
  {
    assert column in d.columns ==> d.columns + {column} == d.columns;
  }

  // ----- Meaning of the rollups -----

  /** The mean a chart shows for one row, and the row the old writer kept for an aggregate. */
  function Averaged(a: Agg): AvgRow
    requires a.cnt != 0
  {
    AvgRow(a.min, a.max, a.sum / a.cnt as real, a.cnt)
  }

  lemma RebuildInverts(a: Agg)
    requires a.cnt != 0
    ensures Rebuilt(Averaged(a)) == a
  {
    assert a.sum / a.cnt as real * a.cnt as real == a.sum;
  }

  /** The old chart read SUM(avg * cnt) / SUM(cnt) over the old rows of a range. */
  function OldMerged(t: map<Key, AvgRow>, s: int, m: string, lo: int, hi: int): (real, int)
    decreases hi - lo
  {
    if hi <= lo then (0.0, 0)
    else
      var (total, cnt) := OldMerged(t, s, m, lo, hi - 1);
      var k := Key(s, m, hi - 1);
      if k in t then (total + t[k].avg * t[k].cnt as real, cnt + t[k].cnt) else (total, cnt)
  }

  /** Rebuilding changes no weighted mean over any range of buckets. */
  lemma {:induction false} WeightedMeanUnchanged(t: map<Key, AvgRow>, s: int, m: string, lo: int, hi: int)
    ensures var (total, cnt) := OldMerged(t, s, m, lo, hi);
            var merged := Merged(RebuildTier(Averages(t)).rows, s, m, lo, hi);
            if merged.None? then total == 0.0 && cnt == 0 else merged.value.sum == total && merged.value.cnt == cnt
    decreases hi - lo
  {
    if lo < hi {
      WeightedMeanUnchanged(t, s, m, lo, hi - 1);
    }
  }

  /** The table the old writer would hold after a history. */
  ghost function AveragesOf(h: seq<Push>, width: int): map<Key, AvgRow>
    requires width > 0
  {
    map k | k in TierOf(h, width) :: if TierOf(h, width)[k].cnt != 0 then Averaged(TierOf(h, width)[k]) else AvgRow(0.0, 0.0, 0.0, 0)
  }

  lemma RebuildRestoresFold(h: seq<Push>, width: int)
    requires width > 0
    ensures RebuildTier(Averages(AveragesOf(h, width))) == Sums(TierOf(h, width))
  {
    var t := TierOf(h, width);
    var rebuilt := RebuildTier(Averages(AveragesOf(h, width))).rows;
    assert rebuilt.Keys == t.Keys;
    forall k | k in t ensures rebuilt[k] == t[k] {
      BucketIsExact(h, width, k);
      RebuildInverts(t[k]);
    }
  }

  /** Folding on after the migration is as if sums had been stored from the start. */
  lemma {:induction false} FoldingContinues(before: seq<Push>, after: seq<Push>, width: int)
    requires width > 0
    ensures FoldOnto(RebuildTier(Averages(AveragesOf(before, width))).rows, after, width) == TierOf(before + after, width)
    decreases |after|
  {
    RebuildRestoresFold(before, width);
    if after == [] {
      assert before + after == before;
    } else {
      var n := |after| - 1;
      FoldingContinues(before, after[..n], width);
      assert (before + after)[..|before + after| - 1] == before + after[..n];
    }
  }

  function FoldOnto(t: Tier, h: seq<Push>, width: int): Tier
    requires width > 0
  {
    if h == [] then t else Upsert(FoldOnto(t, h[..|h| - 1], width), width, h[|h| - 1])
  }
}
