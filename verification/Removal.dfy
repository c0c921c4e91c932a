/**
 Two-phase removal: the server row, the agent on its host, and the uninstall script that is the only one to
 report. The row's side over any run of the mother, then the joint machine of all three.
 */
module Removal {
  import opened Wrappers
  import opened MotherTables

  // ----- The row -----

  /** The two ways out for a server that has pushed. */
  predicate Departs(t: Tables, e: Event, id: int)
    requires id in t.servers
  {
    || (e.RemoveServer? && e.id == id && e.force)
    || (e.Uninstalled? && e.id == id && e.token == t.servers[id].token && t.servers[id].requestedAt != 0)
  }

  /** The mother's clock is past 1970. */
  ghost predicate AfterEpoch(events: seq<Event>) {
    forall i :: 0 <= i < |events| ==> (events[i].Ingest? || events[i].RemoveServer? ==> events[i].now > 0)
  }

  /** The row is there after each of the first n events. */
  ghost predicate Stays(t: Tables, events: seq<Event>, n: nat, id: int)
    requires n <= |events|
  {
    forall i :: 0 <= i <= n ==> id in Run(t, events[..i]).servers
  }

  lemma RunPrefix(t: Tables, events: seq<Event>, n: nat)
    requires 0 < n <= |events|
    ensures Run(t, events[..n]) == Next(Run(t, events[..n - 1]), events[n - 1])
  {
    assert events[..n][..n - 1] == events[..n - 1] && events[..n][n - 1] == events[n - 1];
  }

  /** What stands while the row does. */
  predicate Kept(before: Server, after: Server) {
    && after.lastPush != 0 && after.token == before.token
    && (before.os != "" ==> after.os != "") && (before.arch != "" ==> after.arch != "")
    && (before.requestedAt != 0 ==> after.requestedAt == before.requestedAt)
  }

  lemma OnlyDepartures(t: Tables, e: Event, id: int)
    requires id in t.servers && t.servers[id].lastPush != 0
    ensures id !in Next(t, e).servers ==> Departs(t, e, id)
  {
  }

  lemma PushKeepsRow(before: Server, hb: Heartbeat, now: int)
    requires before.lastPush != 0 && now > 0
    ensures Kept(before, Touch(before, hb, now)) && Touch(before, hb, now).requestedAt == before.requestedAt
  {
  }

  lemma StepKeepsRow(t: Tables, e: Event, id: int)
    requires id in t.servers && t.servers[id].lastPush != 0 && (e.Ingest? ==> e.now > 0)
    ensures id in Next(t, e).servers ==>
              var before, after := t.servers[id], Next(t, e).servers[id];
              && Kept(before, after)
              && (before.requestedAt == 0 && after.requestedAt != 0 ==> e == RemoveServer(id, false, after.requestedAt))
  {
    if e.Ingest? {
      PushKeepsRow(t.servers[id], e.hb, e.now);
    }
  }

  /** Over any run the row stays in, token, known platform and request time stand. */
  lemma {:induction false} RowStands(t: Tables, events: seq<Event>, n: nat, id: int)
    requires id in t.servers && t.servers[id].lastPush != 0 && AfterEpoch(events) && n <= |events| && Stays(t, events, n, id)
    ensures Kept(t.servers[id], Run(t, events[..n]).servers[id])
  {
    if n == 0 {
      assert events[..0] == [];
    } else {
      RowStands(t, events, n - 1, id);
      RunPrefix(t, events, n);
      StillKept(t.servers[id], Run(t, events[..n - 1]), events[n - 1], id);
    }
  }

  lemma StillKept(first: Server, before: Tables, e: Event, id: int)
    requires id in before.servers && id in Next(before, e).servers && (e.Ingest? ==> e.now > 0)
    requires Kept(first, before.servers[id])
    ensures Kept(first, Next(before, e).servers[id])
  {
    StepKeepsRow(before, e, id);
  }

  /** A request that was not there at first came from an unforced delete. */
  lemma {:induction false} RequestedBy(t: Tables, events: seq<Event>, n: nat, id: int) returns (i: nat)
    requires id in t.servers && t.servers[id].lastPush != 0 && AfterEpoch(events) && n <= |events| && Stays(t, events, n, id)
    requires t.servers[id].requestedAt == 0 && Run(t, events[..n]).servers[id].requestedAt != 0
    ensures i < n && events[i] == RemoveServer(id, false, Run(t, events[..n]).servers[id].requestedAt)
  {
    assert events[..0] == [];
    var before := Run(t, events[..n - 1]);
    RowStands(t, events, n - 1, id);
    RunPrefix(t, events, n);
    StepKeepsRow(before, events[n - 1], id);
    i := n - 1;
    if before.servers[id].requestedAt != 0 {
      i := RequestedBy(t, events, n - 1, id);
    }
  }

  lemma FirstAbsence(t: Tables, events: seq<Event>, id: int) returns (n: nat)
    requires id in t.servers && id !in Run(t, events).servers
    ensures n < |events| && Stays(t, events, n, id) && id !in Run(t, events[..n + 1]).servers
  {
    n := 0;
    assert events[..0] == [] && events[..|events|] == events;
    while n < |events| && id in Run(t, events[..n + 1]).servers
      invariant n <= |events| && Stays(t, events, n, id)
      decreases |events| - n
    {
      n := n + 1;
    }
  }

  /** A server that has pushed leaves the table only by force, or by an authenticated report after a request. */
  lemma LeavesInTwoPhases(t: Tables, events: seq<Event>, id: int) returns (n: nat)
    requires id in t.servers && t.servers[id].lastPush != 0 && AfterEpoch(events)
    requires id !in Run(t, events).servers
    ensures n < |events| && Stays(t, events, n, id) && Departs(Run(t, events[..n]), events[n], id)
    ensures events[n].Uninstalled? && t.servers[id].requestedAt == 0 ==>
              exists i, now :: 0 <= i < n && events[i] == RemoveServer(id, false, now)
  {
    n := FirstAbsence(t, events, id);
    RowStands(t, events, n, id);
    RunPrefix(t, events, n + 1);
    OnlyDepartures(Run(t, events[..n]), events[n], id);
    if events[n].Uninstalled? && t.servers[id].requestedAt == 0 {
      var i := RequestedBy(t, events, n, id);
    }
  }

  /** While the request stands its time never moves, and every push of the server is told to remove itself. */
  lemma RequestStands(t: Tables, events: seq<Event>, n: nat, id: int)
    requires id in t.servers && t.servers[id].lastPush != 0 && t.servers[id].requestedAt != 0
    requires AfterEpoch(events) && n < |events| && Stays(t, events, n, id)
    ensures Run(t, events[..n]).servers[id].requestedAt == t.servers[id].requestedAt
    ensures events[n].Ingest? && events[n].id == id && events[n].token == t.servers[id].token ==>
              Told(Run(t, events[..n]), id, events[n].token) == Some(true)
  {
    RowStands(t, events, n, id);
  }

  // ----- The host and the script -----

  /** Steps of main in uninstall.sh. */
  datatype Pc = Load | StopService | Unit | Binary | Leftovers | Conf | Manifest | Report | Self | Done | Aborted

  /** `cleared`: this run has passed the binary and left none. `replaced`: somebody has put one back since. */
  datatype Script = Script(pc: Pc, purge: bool, report: bool, dry: bool, token: Option<string>,
                           byAgent: bool, cleared: bool, replaced: bool)

  datatype Agent = Off | Waiting | Updating

  /** What is on the host: the files the script removes and the agent process. */
  datatype Host = Host(unit: bool, binary: bool, leftovers: bool, conf: bool, manifest: bool, uninstaller: bool, agent: Agent)

  /** The token is the one in the host's agent.conf. */
  datatype System = System(tables: Tables, token: string, host: Host, script: Option<Script>)

  datatype Move =
    | Mother(e: Event)
    | Push(e: Event, starts: bool)
    | UpdateEnds(placed: bool)
    | AgentStarts
    | AgentStops
    | ByHand(purge: bool, report: bool, dry: bool)
    | ScriptStep(ok: bool, id: int)

  predicate Running(script: Option<Script>) {
    script.Some? && !script.value.pc.Done? && !script.value.pc.Aborted?
  }

  function NewScript(purge: bool, report: bool, dry: bool, byAgent: bool): Script {
    Script(Load, purge, report, dry, None, byAgent, false, false)
  }

  predicate Reports(s: Script) {
    s.report && !s.dry && s.token.Some?
  }

  /** remove: nothing there or a dry run goes on, a failed rm aborts under set -e. */
  function Rm(s: Script, present: bool, ok: bool, next: Pc): Pc {
    if present && !s.dry && !ok then Aborted else next
  }

  /** Is a file that was (or was not) there still there after the step that removes it? */
  function Left(s: Script, step: Pc, present: bool, ok: bool): bool {
    present && (s.pc != step || s.dry || !ok)
  }

  function PcAfter(s: Script, h: Host, ok: bool): Pc {
    match s.pc
    case Load => StopService
    case StopService => Unit
    case Unit => Rm(s, h.unit, ok, Binary)
    case Binary => Rm(s, h.binary, ok, Leftovers)
    case Leftovers => Rm(s, h.leftovers, ok, if s.purge then Conf else Report)
    case Conf => Rm(s, h.conf, ok, Manifest)
    case Manifest => Rm(s, h.manifest, ok, Report)
    case Report => Self
    case Self => Rm(s, h.uninstaller, ok, Done)
    case Done => Done
    case Aborted => Aborted
  }

  /** One step of the script. `ok` says whether the command it runs works. */
  function ScriptAfter(s: Script, h: Host, token: string, ok: bool): Script {
    Script(PcAfter(s, h, ok), s.purge, s.report, s.dry,
           if !s.pc.Load? then s.token else if h.conf && ok then Some(token) else None,
           s.byAgent,
           if s.pc.Binary? then !s.dry && (ok || !h.binary) else s.cleared,
           s.replaced)
  }

  function HostAfter(s: Script, h: Host, ok: bool): Host {
    Host(Left(s, Unit, h.unit, ok), Left(s, Binary, h.binary, ok), Left(s, Leftovers, h.leftovers, ok),
         Left(s, Conf, h.conf, ok), Left(s, Manifest, h.manifest, ok), Left(s, Self, h.uninstaller, ok),
         if s.pc.StopService? && ok && !s.dry then Off else h.agent)
  }

  /** `id` is the row the script's token finds. */
  function TablesAfter(s: Script, t: Tables, ok: bool, id: int): Tables {
    if s.pc.Report? && Reports(s) && ok then Next(t, Uninstalled(id, s.token.value)) else t
  }

  function StepScript(y: System, ok: bool, id: int): System
    requires Running(y.script)
  {
    var s := y.script.value;
    System(TablesAfter(s, y.tables, ok, id), y.token, HostAfter(s, y.host, ok), Some(ScriptAfter(s, y.host, y.token, ok)))
  }

  /** A landed push: removal outranks the rollout, and only a row that wants no removal gets an update started. */
  function Answered(y: System, e: Event, starts: bool): System
    requires e.Ingest?
  {
    var told := Told(y.tables, e.id, e.token);
    var z := y.(tables := Next(y.tables, e));
    if told.None? then z
    else if told.value then
      if starts && y.host.uninstaller && !Running(y.script) then z.(script := Some(NewScript(true, true, false, true))) else z
    else if starts then z.(host := y.host.(agent := Updating)) else z
  }

  /** The token is 16 random bytes: nobody else is given it, and nobody else presents it. The clock is past 1970. */
  predicate Others(e: Event, token: string) {
    && !((e.Ingest? || e.Uninstalled? || e.AddServer?) && e.token == token)
    && (e.RemoveServer? ==> e.now > 0)
  }

  function After(y: System, m: Move): Option<System> {
    match m
    case Mother(e) => if Others(e, y.token) then Some(y.(tables := Next(y.tables, e))) else None
    case Push(e, starts) =>
      if e.Ingest? && e.token == y.token && y.host.agent.Waiting? then Some(Answered(y, e, starts)) else None
    case UpdateEnds(placed) =>
      if y.host.agent.Updating? then
        Some(y.(host := y.host.(agent := Waiting, binary := y.host.binary || placed),
             script := if placed && y.script.Some? && y.script.value.cleared
                       then Some(y.script.value.(replaced := true)) else y.script))
      else None
    case AgentStarts => if y.host.agent.Off? && y.host.binary then Some(y.(host := y.host.(agent := Waiting))) else None
    case AgentStops => Some(y.(host := y.host.(agent := Off)))
    case ByHand(purge, report, dry) =>
      if Running(y.script) then None else Some(y.(script := Some(NewScript(purge, report, dry, false))))
    case ScriptStep(ok, id) => if Running(y.script) then Some(StepScript(y, ok, id)) else None
  }

  function Follow(y: System, moves: seq<Move>): Option<System> {
    if moves == [] then Some(y)
    else
      var before := Follow(y, moves[..|moves| - 1]);
      if before.Some? then After(before.value, moves[|moves| - 1]) else None
  }

  // ----- A reported removal is a fact -----

  /** Every row the host's token opens is asked to be removed. */
  ghost predicate AllRequested(t: Tables, token: string) {
    forall id :: id in t.servers && t.servers[id].token == token ==> t.servers[id].requestedAt != 0
  }

  predicate PastBinary(pc: Pc) {
    pc.Leftovers? || pc.Conf? || pc.Manifest? || pc.Report? || pc.Self? || pc.Done?
  }

  predicate ScriptOk(s: Script, h: Host) {
    && (PastBinary(s.pc) ==> s.cleared || s.dry)
    && (s.cleared ==> !s.dry && (!h.binary || s.replaced))
    && (s.byAgent ==> !s.replaced)
  }

  /** A removal the agent itself started leaves no agent that could still be updating. */
  ghost predicate NoUpdate(y: System) {
    Running(y.script) && y.script.value.byAgent ==> AllRequested(y.tables, y.token) && !y.host.agent.Updating?
  }

  ghost predicate Inv(y: System) {
    && UniqueTokens(y.tables.servers)
    && (Running(y.script) ==> ScriptOk(y.script.value, y.host))
    && NoUpdate(y)
  }

  lemma RequestedKept(t: Tables, e: Event, token: string)
    requires AllRequested(t, token) && !(e.AddServer? && e.token == token) && (e.RemoveServer? ==> e.now > 0)
    ensures AllRequested(Next(t, e), token)
  {
  }

  lemma AnswerKeepsInv(y: System, e: Event, starts: bool)
    requires Inv(y) && e.Ingest? && e.token == y.token && y.host.agent.Waiting?
    ensures Inv(Answered(y, e, starts))
  {
    StepKeepsUnique(y.tables, e);
    if AllRequested(y.tables, y.token) {
      RequestedKept(y.tables, e, y.token);
    }
    var told := Told(y.tables, e.id, e.token);
    if told == Some(true) {
      assert forall id :: id in y.tables.servers && y.tables.servers[id].token == y.token ==> id == e.id;
    }
  }

  lemma ScriptStaysOk(s: Script, h: Host, token: string, ok: bool, r: Script, g: Host)
    requires ScriptOk(s, h) && r == ScriptAfter(s, h, token, ok) && g == HostAfter(s, h, ok)
    ensures ScriptOk(r, g) && r.byAgent == s.byAgent && (g.agent == h.agent || g.agent == Off)
  {
  }

  lemma ReportKeepsTables(s: Script, t: Tables, ok: bool, id: int, token: string)
    requires UniqueTokens(t.servers)
    ensures UniqueTokens(TablesAfter(s, t, ok, id).servers)
    ensures AllRequested(t, token) ==> AllRequested(TablesAfter(s, t, ok, id), token)
  {
  }

  lemma ScriptKeepsInv(y: System, ok: bool, id: int, z: System)
    requires Inv(y) && Running(y.script) && z == StepScript(y, ok, id)
    ensures Inv(z)
  {
    var s := y.script.value;
    ScriptStaysOk(s, y.host, y.token, ok, z.script.value, z.host);
    ReportKeepsTables(s, y.tables, ok, id, y.token);
  }

  lemma StepKeepsInv(y: System, m: Move, z: System)
    requires Inv(y) && After(y, m) == Some(z)
    ensures Inv(z) && z.token == y.token
  {
    match m
    case Mother(e) =>
      StepKeepsUnique(y.tables, e);
      if AllRequested(y.tables, y.token) {
        RequestedKept(y.tables, e, y.token);
      }
    case Push(e, starts) => AnswerKeepsInv(y, e, starts);
    case ScriptStep(ok, id) => ScriptKeepsInv(y, ok, id, z);
    case _ =>
  }

  lemma {:induction false} RunKeepsInv(y: System, moves: seq<Move>, z: System)
    requires Inv(y) && Follow(y, moves) == Some(z)
    ensures Inv(z) && z.token == y.token
  {
    if moves != [] {
      var before := Follow(y, moves[..|moves| - 1]).value;
      RunKeepsInv(y, moves[..|moves| - 1], before);
      StepKeepsInv(before, moves[|moves| - 1], z);
    }
  }

  /** A mother and an installed host with no script under way. */
  predicate Idle(y: System) {
    !Running(y.script)
  }

  /** The script's next step takes a row out. */
  predicate Drops(z: System, ok: bool, row: int, gone: int) {
    Running(z.script) && gone in z.tables.servers && gone !in StepScript(z, ok, row).tables.servers
  }

  /** The token a script has read is the host's. */
  lemma {:induction false} TokenIsTheHosts(y: System, moves: seq<Move>, z: System)
    requires Idle(y) && Follow(y, moves) == Some(z)
    ensures z.token == y.token && (Running(z.script) && z.script.value.token.Some? ==> z.script.value.token == Some(z.token))
  {
    if moves != [] {
      TokenIsTheHosts(y, moves[..|moves| - 1], Follow(y, moves[..|moves| - 1]).value);
    }
  }

  /**
   When a step of the script drops a row, the row was asked to be removed and this very run had removed the
   agent binary before. If the agent itself started the script the binary is still gone; otherwise it is gone
   unless an update that outlived the service stop has put it back.
   */
  lemma ReportedRemovalIsAFact(y: System, moves: seq<Move>, z: System, ok: bool, id: int, gone: int)
    requires Idle(y) && UniqueTokens(y.tables.servers) && Follow(y, moves) == Some(z) && Drops(z, ok, id, gone)
    ensures Authenticates(z.tables, gone, z.token) && gone == id
    ensures z.script.value.pc.Report? && z.script.value.report && !z.script.value.dry
    ensures z.tables.servers[gone].requestedAt != 0
    ensures z.script.value.cleared && (z.host.binary ==> z.script.value.replaced && !z.script.value.byAgent)
  {
    RunKeepsInv(y, moves, z);
    TokenIsTheHosts(y, moves, z);
  }

  // ----- A report that does not arrive -----

  /** The script ended without its report arriving: nothing on the host can report any more. */
  predicate Silent(y: System) {
    && !y.host.conf
    && (Running(y.script) ==> y.script.value.token.None? || y.script.value.pc.Self?)
  }

  lemma ScriptStaysSilent(s: Script, h: Host, token: string, ok: bool, r: Script, g: Host)
    requires !h.conf && (s.token.None? || s.pc.Self?)
    requires r == ScriptAfter(s, h, token, ok) && g == HostAfter(s, h, ok)
    ensures !g.conf && (r.token.None? || r.pc.Self? || r.pc.Done? || r.pc.Aborted?)
  {
  }

  lemma SilenceKept(y: System, m: Move, z: System)
    requires Silent(y) && After(y, m) == Some(z)
    ensures Silent(z)
  {
    match m
    case Mother(e) =>
    case Push(e, starts) =>
    case UpdateEnds(placed) =>
    case ScriptStep(ok, id) => ScriptStaysSilent(y.script.value, y.host, y.token, ok, z.script.value, z.host);
    case _ =>
  }

  lemma {:induction false} SilenceLasts(y: System, moves: seq<Move>, z: System)
    requires Silent(y) && Follow(y, moves) == Some(z)
    ensures Silent(z)
  {
    if moves != [] {
      var before := Follow(y, moves[..|moves| - 1]).value;
      SilenceLasts(y, moves[..|moves| - 1], before);
      SilenceKept(before, moves[|moves| - 1], z);
    }
  }

  /** The step after a report unlinks the uninstaller exactly when it can, whether or not the report arrived. */
  lemma LostReportIsFinal(y: System, arrived: bool, ok: bool, id: int)
    requires Running(y.script) && y.script.value.pc.Report?
    ensures var z := StepScript(StepScript(y, arrived, id), ok, id);
            && (z.host.uninstaller <==> y.host.uninstaller && (y.script.value.dry || !ok))
            && (!arrived ==> z.tables == y.tables)
            && (!y.host.conf ==> Silent(z))
  {
  }

  /** From then on a row of that host that has pushed leaves only by force. */
  lemma SilentRowNeedsForce(y: System, moves: seq<Move>, z: System, m: Move, id: int)
    requires Silent(y) && Follow(y, moves) == Some(z) && After(z, m).Some?
    requires id in z.tables.servers && z.tables.servers[id].token == z.token && z.tables.servers[id].lastPush != 0
    requires m.Mother? && m.e.Ingest? ==> m.e.now > 0
    requires m.Push? ==> m.e.now > 0
    requires id !in After(z, m).value.tables.servers
    ensures m.Mother? && m.e.RemoveServer? && m.e.id == id && m.e.force
  {
    SilenceLasts(y, moves, z);
    if m.Mother? || m.Push? {
      OnlyDepartures(z.tables, m.e, id);
    }
  }

  // ----- Exactly when a reported removal leaves no binary behind -----

  /** Whatever happens from here on: a report that drops a row finds no agent binary on the host. */
  ghost predicate ReportsAreFacts(y: System) {
    forall moves, z, ok, row, gone ::
      Follow(y, moves) == Some(z) && Drops(z, ok, row, gone) ==> !z.host.binary
  }

  /** Nothing to report with, nothing to report on, nobody to update, or nobody who will. */
  ghost predicate NobodyPutsItBack(y: System) {
    || !y.host.conf
    || Unknown(y.tables, y.token)
    || (y.host.agent.Off? && !y.host.binary)
    || (AllRequested(y.tables, y.token) && !y.host.agent.Updating?)
  }

  /** No update is under way, none will be started, and none has put a binary back. */
  ghost predicate NoMoreUpdates(y: System) {
    AllRequested(y.tables, y.token) && !y.host.agent.Updating? && (Running(y.script) ==> !y.script.value.replaced)
  }

  lemma AnswerStartsNoUpdate(y: System, e: Event, starts: bool)
    requires NoMoreUpdates(y) && e.Ingest? && e.token == y.token
    ensures NoMoreUpdates(Answered(y, e, starts))
  {
    RequestedKept(y.tables, e, y.token);
  }

  lemma StepStartsNoUpdate(y: System, m: Move, z: System)
    requires Inv(y) && NoMoreUpdates(y) && After(y, m) == Some(z)
    ensures NoMoreUpdates(z)
  {
    match m
    case Mother(e) => RequestedKept(y.tables, e, y.token);
    case Push(e, starts) => AnswerStartsNoUpdate(y, e, starts);
    case ScriptStep(ok, id) => ReportKeepsTables(y.script.value, y.tables, ok, id, y.token);
    case _ =>
  }

  lemma {:induction false} RunStartsNoUpdate(y: System, moves: seq<Move>, z: System)
    requires Inv(y) && NoMoreUpdates(y) && Follow(y, moves) == Some(z)
    ensures NoMoreUpdates(z)
  {
    if moves != [] {
      var before := Follow(y, moves[..|moves| - 1]).value;
      RunStartsNoUpdate(y, moves[..|moves| - 1], before);
      RunKeepsInv(y, moves[..|moves| - 1], before);
      StepStartsNoUpdate(before, moves[|moves| - 1], z);
    }
  }

  lemma UnknownKept(t: Tables, e: Event, token: string)
    requires Unknown(t, token) && !(e.AddServer? && e.token == token)
    ensures Unknown(Next(t, e), token)
  {
    forall id ensures !Authenticates(Next(t, e), id, token) {
      assert !Authenticates(t, id, token);
    }
  }

  /** A token that opens no row never comes to open one. */
  lemma {:induction false} TokenStaysUnknown(y: System, moves: seq<Move>, z: System)
    requires Unknown(y.tables, y.token) && Follow(y, moves) == Some(z)
    ensures Unknown(z.tables, z.token) && z.token == y.token
  {
    if moves != [] {
      var before := Follow(y, moves[..|moves| - 1]).value;
      TokenStaysUnknown(y, moves[..|moves| - 1], before);
      match moves[|moves| - 1]
      case Mother(e) => UnknownKept(before.tables, e, y.token);
      case Push(e, _) => UnknownKept(before.tables, e, y.token);
      case ScriptStep(ok, id) =>
        UnknownKept(before.tables, Uninstalled(id, y.token), y.token);
        ReportKeepsUnknown(before.script.value, before.tables, ok, id, y.token);
      case _ =>
    }
  }

  lemma ReportKeepsUnknown(s: Script, t: Tables, ok: bool, id: int, token: string)
    requires Unknown(t, token)
    ensures Unknown(TablesAfter(s, t, ok, id), token)
  {
    if s.pc.Report? && Reports(s) && ok {
      UnknownKept(t, Uninstalled(id, s.token.value), token);
    }
  }

  /** With neither binary nor agent there is nobody to bring one. */
  lemma {:induction false} StaysBare(y: System, moves: seq<Move>, z: System)
    requires y.host.agent.Off? && !y.host.binary && Follow(y, moves) == Some(z)
    ensures z.host.agent.Off? && !z.host.binary
  {
    if moves != [] {
      StaysBare(y, moves[..|moves| - 1], Follow(y, moves[..|moves| - 1]).value);
    }
  }

  lemma NothingComesBack(y: System, moves: seq<Move>, z: System, ok: bool, row: int, gone: int)
    requires Idle(y) && UniqueTokens(y.tables.servers) && NobodyPutsItBack(y) && Follow(y, moves) == Some(z)
    requires Drops(z, ok, row, gone)
    ensures !z.host.binary
  {
    ReportedRemovalIsAFact(y, moves, z, ok, row, gone);
    if !y.host.conf {
      SilenceLasts(y, moves, z);
    } else if Unknown(y.tables, y.token) {
      TokenStaysUnknown(y, moves, z);
      assert false;
    } else if y.host.agent.Off? && !y.host.binary {
      StaysBare(y, moves, z);
    } else {
      RunStartsNoUpdate(y, moves, z);
    }
  }

  // ----- A run by hand that leaves one -----

  lemma OneMore(y: System, moves: seq<Move>, z: System, m: Move) returns (longer: seq<Move>, u: System)
    requires Follow(y, moves) == Some(z) && After(z, m).Some?
    ensures Follow(y, longer) == Some(u) && After(z, m) == Some(u)
  {
    longer, u := moves + [m], After(z, m).value;
    assert longer[..|moves|] == moves;
  }

  /** A host whose agent is updating and whose row can be asked to leave without going at once. */
  predicate Ripe(y: System, id: int) {
    && Idle(y) && y.host.conf && y.host.agent.Updating? && Authenticates(y.tables, id, y.token)
    && (y.tables.servers[id].requestedAt != 0 || y.tables.servers[id].lastPush != 0)
  }

  /** An update that ends and an agent that starts leave one that waits. */
  lemma Wakes(y: System) returns (moves: seq<Move>, z: System)
    requires y.host.binary || !y.host.agent.Off?
    ensures Follow(y, moves) == Some(z) && z.host.agent.Waiting? && z.host.conf == y.host.conf && z.tables == y.tables
    ensures z.token == y.token && Running(z.script) == Running(y.script)
  {
    moves, z := [], y;
    if y.host.agent.Off? {
      moves, z := OneMore(y, moves, z, AgentStarts);
    } else if y.host.agent.Updating? {
      moves, z := OneMore(y, moves, z, UpdateEnds(true));
    }
  }

  function EmptyPush(id: int, token: string): Event {
    Ingest(id, token, Heartbeat("", "", "", "", ""), map[], 1, {}, 0)
  }

  lemma PushRipens(y: System, id: int, z: System)
    requires Idle(y) && y.host.conf && Authenticates(y.tables, id, y.token) && y.tables.servers[id].requestedAt == 0
    requires z == Answered(y, EmptyPush(id, y.token), true)
    ensures Ripe(z, id)
  {
  }

  lemma Ripens(y: System, id: int) returns (moves: seq<Move>, z: System)
    requires Idle(y) && y.host.conf && Authenticates(y.tables, id, y.token) && (y.host.binary || !y.host.agent.Off?)
    requires y.tables.servers[id].requestedAt == 0 || y.host.agent.Updating?
    ensures Follow(y, moves) == Some(z) && Ripe(z, id)
  {
    moves, z := [], y;
    if y.tables.servers[id].requestedAt == 0 {
      moves, z := Wakes(y);
      var awake := z;
      moves, z := OneMore(y, moves, awake, Push(EmptyPush(id, y.token), true));
      PushRipens(awake, id, z);
    }
  }

  /** A script run by hand whose stop fails, as far as the binary. */
  lemma GoesOn(y: System, before: seq<Move>, z: System, id: int) returns (moves: seq<Move>, u: System)
    requires Follow(y, before) == Some(z) && Ripe(z, id)
    ensures Follow(y, moves) == Some(u) && u.tables == z.tables && u.token == z.token && u.host.agent.Updating?
    ensures Running(u.script) && u.script.value.pc.Binary? && Reports(u.script.value) && !u.script.value.purge
  {
    moves, u := OneMore(y, before, z, ByHand(false, true, false));
    moves, u := OneMore(y, moves, u, ScriptStep(true, id));
    moves, u := OneMore(y, moves, u, ScriptStep(false, id));
    moves, u := OneMore(y, moves, u, ScriptStep(true, id));
  }

  /** The binary goes, and the update puts it back before the report. */
  lemma ComesBack(y: System, before: seq<Move>, z: System, id: int) returns (moves: seq<Move>, u: System)
    requires Follow(y, before) == Some(z) && z.host.agent.Updating?
    requires Running(z.script) && z.script.value.pc.Binary? && Reports(z.script.value) && !z.script.value.purge
    ensures Follow(y, moves) == Some(u) && u.tables == z.tables && u.token == z.token && u.host.binary
    ensures Running(u.script) && u.script.value.pc.Report? && Reports(u.script.value)
  {
    moves, u := OneMore(y, before, z, ScriptStep(true, id));
    moves, u := OneMore(y, moves, u, UpdateEnds(true));
    moves, u := OneMore(y, moves, u, ScriptStep(true, id));
  }

  /** An idle host, a script by hand, a stop that fails, an update that ends late: the report drops the row all the same. */
  lemma UpdateOutlivesByHand(y: System, id: int) returns (moves: seq<Move>, z: System)
    requires Idle(y) && y.host.conf && Authenticates(y.tables, id, y.token) && (y.host.binary || !y.host.agent.Off?)
    requires y.tables.servers[id].requestedAt == 0 || y.host.agent.Updating?
    ensures Follow(y, moves) == Some(z) && z.host.binary
    ensures Drops(z, true, id, id)
  {
    moves, z := Ripens(y, id);
    moves, z := GoesOn(y, moves, z, id);
    moves, z := ComesBack(y, moves, z, id);
    TokenIsTheHosts(y, moves, z);
    if z.tables.servers[id].requestedAt == 0 {
      moves, z := OneMore(y, moves, z, Mother(RemoveServer(id, false, 1)));
    }
  }

  /** From any idle host: exactly when every row its scripts will ever report goes with no agent binary left there. */
  lemma RemovalIsAFactExactly(y: System)
    requires Idle(y) && UniqueTokens(y.tables.servers)
    ensures ReportsAreFacts(y) <==> NobodyPutsItBack(y)
  {
    if NobodyPutsItBack(y) {
      forall moves, z, ok, row, gone |
        Follow(y, moves) == Some(z) && Drops(z, ok, row, gone)
        ensures !z.host.binary
      {
        NothingComesBack(y, moves, z, ok, row, gone);
      }
    } else {
      var id :| Authenticates(y.tables, id, y.token) &&
                (y.tables.servers[id].requestedAt == 0 || y.host.agent.Updating?);
      var moves, z := UpdateOutlivesByHand(y, id);
    }
  }

  // ----- What a script leaves behind -----

  function Rank(pc: Pc): int {
    match pc
    case Load => 0
    case StopService => 1
    case Unit => 2
    case Binary => 3
    case Leftovers => 4
    case Conf => 5
    case Manifest => 6
    case Report => 7
    case Self => 8
    case Done => 9
    case Aborted => -1
  }

  /** What is gone once a script that is not dry is past the steps that remove it. */
  predicate Swept(s: Script, h: Host) {
    && (s.pc.Conf? || s.pc.Manifest? ==> s.purge)
    && (!s.dry ==>
         && (Rank(s.pc) > 2 ==> !h.unit)
         && (Rank(s.pc) > 3 ==> s.cleared && (!h.binary || s.replaced))
         && (Rank(s.pc) > 4 ==> !h.leftovers)
         && (Rank(s.pc) > 5 && s.purge ==> !h.conf)
         && (Rank(s.pc) > 6 && s.purge ==> !h.manifest)
         && (Rank(s.pc) > 8 ==> !h.uninstaller))
  }

  lemma ScriptStaysSwept(s: Script, h: Host, token: string, ok: bool, r: Script, g: Host)
    requires Swept(s, h) && r == ScriptAfter(s, h, token, ok) && g == HostAfter(s, h, ok)
    ensures Swept(r, g)
  {
  }

  /** What the script, if any, has done so far. */
  predicate SweptSystem(y: System) {
    y.script.Some? ==> Swept(y.script.value, y.host)
  }

  lemma PushStaysSwept(y: System, e: Event, starts: bool)
    requires SweptSystem(y) && e.Ingest?
    ensures SweptSystem(Answered(y, e, starts))
  {
  }

  lemma StepStaysSwept(y: System, m: Move, z: System)
    requires SweptSystem(y) && After(y, m) == Some(z)
    ensures SweptSystem(z)
  {
    match m
    case Push(e, starts) => PushStaysSwept(y, e, starts);
    case ScriptStep(ok, id) => ScriptStaysSwept(y.script.value, y.host, y.token, ok, z.script.value, z.host);
    case _ =>
  }

  lemma {:induction false} RunStaysSwept(y: System, moves: seq<Move>, z: System)
    requires SweptSystem(y) && Follow(y, moves) == Some(z)
    ensures SweptSystem(z)
  {
    if moves != [] {
      var before := Follow(y, moves[..|moves| - 1]).value;
      RunStaysSwept(y, moves[..|moves| - 1], before);
      StepStaysSwept(before, moves[|moves| - 1], z);
    }
  }

  /**
   A run that ends leaves no unit, no leftovers, no uninstaller and no binary but one an update put back, and no
   configuration if it purges.
   */
  lemma FinishedRunLeavesNothing(y: System, moves: seq<Move>, z: System)
    requires y.script.None? && Follow(y, moves) == Some(z) && z.script.Some? && z.script.value.pc.Done? && !z.script.value.dry
    ensures !z.host.unit && !z.host.leftovers && !z.host.uninstaller && (z.host.binary ==> z.script.value.replaced)
    ensures z.script.value.purge ==> !z.host.conf && !z.host.manifest
  {
    RunStaysSwept(y, moves, z);
  }

  /** A dry run changes neither host nor tables; a run that does not purge keeps configuration and manifest. */
  lemma StepSpares(y: System, ok: bool, id: int)
    requires Running(y.script) && Swept(y.script.value, y.host)
    ensures var z := StepScript(y, ok, id);
            && (y.script.value.dry ==> z.host == y.host && z.tables == y.tables)
            && (!y.script.value.purge ==> z.host.conf == y.host.conf && z.host.manifest == y.host.manifest)
  {
  }

  /** The file a step is about to remove, if it is there. */
  predicate Removes(pc: Pc, h: Host) {
    match pc
    case Unit => h.unit
    case Binary => h.binary
    case Leftovers => h.leftovers
    case Conf => h.conf
    case Manifest => h.manifest
    case Self => h.uninstaller
    case _ => false
  }

  /** A script gives up exactly at a file that is there and cannot be removed; else it takes the steps one by one. */
  lemma AbortsExactly(y: System, ok: bool, id: int)
    requires Running(y.script)
    ensures var s, r := y.script.value, StepScript(y, ok, id).script.value;
            && (r.pc.Aborted? <==> Removes(s.pc, y.host) && !s.dry && !ok)
            && (!r.pc.Aborted? ==> Rank(r.pc) == if s.pc.Leftovers? && !s.purge then 7 else Rank(s.pc) + 1)
  {
  }

  /** The token is read from the configuration at the start; the report is made once, with it, if it was asked for. */
  lemma ReportsExactly(y: System, ok: bool, id: int)
    requires Running(y.script)
    ensures var s, z := y.script.value, StepScript(y, ok, id);
            && z.script.value.token == (if !s.pc.Load? then s.token else if y.host.conf && ok then Some(y.token) else None)
            && z.tables == (if s.pc.Report? && s.report && !s.dry && s.token.Some? && ok
                            then Next(y.tables, Uninstalled(id, s.token.value)) else y.tables)
            && z.host.agent == (if s.pc.StopService? && !s.dry && ok then Off else y.host.agent)
  {
  }

  /** What the answer to a push starts: the purging, reporting script where it is installed, or an update, never both. */
  lemma AnswerStartsExactly(y: System, e: Event, starts: bool)
    requires e.Ingest? && Authenticates(y.tables, e.id, e.token)
    ensures var z, leaving := Answered(y, e, starts), y.tables.servers[e.id].requestedAt != 0;
            && z.script == (if leaving && starts && y.host.uninstaller && !Running(y.script)
                            then Some(Script(Load, true, true, false, None, true, false, false)) else y.script)
            && z.host == (if !leaving && starts then y.host.(agent := Updating) else y.host)
  {
  }
}
