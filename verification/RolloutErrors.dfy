/**
 The rollout conversation of one agent with the mother: agent/loop.go on one side, the ingest handler and
 the server row on the other. Who a stored update error is about, over every interleaving.
 */
module RolloutErrors {
  import opened Wrappers
  import opened AgentLoop
  import MotherTables

  /** What a push carries about the agent. `about` is the target its error belongs to; it is not on the wire. */
  datatype Report = Report(version: string, err: string, about: string)

  /**
   A push under way. `counted`: begun after the last SetDesiredVersion. `informed`: begun, moreover, after an
   answer naming the current target had landed. Both are history, read by nobody.
   */
  datatype Push = Push(report: Report, counted: bool, informed: bool)

  datatype Flight = Idle | Sent(push: Push) | Answered(push: Push, reply: Response)

  /**
   The columns of the server row that the rollout uses. `settled`: the error was last written by
   SetDesiredVersion, which clears it, or by an informed push.
   */
  datatype Row = Row(version: string, desired: string, err: string, removing: bool, about: string, settled: bool)

  /** `strays` are requests the agent gave up on that may still arrive; `landed` counts counted pushes that landed. */
  datatype System = System(row: Row, agent: Agent, flight: Flight, strays: seq<Push>, landed: nat)

  datatype Event =
    | SetTarget(version: string)
    | RequestRemoval
    | Begin
    | Handle(stored: bool, collectors: seq<string>, interval: int)
    | HandleLate(i: nat, stored: bool)
    | GiveUp
    | Land(now: int, update: Outcome, uninstall: Option<Outcome>)
    | Restart(version: string)

  // ----- The server row -----

  /** SetDesiredVersion: the new target clears the old one's error. */
  function Target(row: Row, version: string): Row {
    row.(desired := version, err := "", about := "", settled := true)
  }

  /** TouchServer: the error is written verbatim, empty or not. */
  function Touch(row: Row, push: Push): Row {
    row.(version := push.report.version, err := push.report.err, about := push.report.about, settled := push.informed)
  }

  /** The row is a view of the stored server. */
  function RowOf(s: MotherTables.Server, about: string, settled: bool): Row {
    Row(s.agentVersion, s.desired, s.updateError, s.requestedAt != 0, about, settled)
  }

  lemma RowFollowsServer(s: MotherTables.Server, about: string, settled: bool, version: string,
                         hb: MotherTables.Heartbeat, now: int, push: Push)
    requires push.report.version == hb.agentVersion && push.report.err == hb.updateError
    ensures RowOf(MotherTables.Targeted(s, version), "", true) == Target(RowOf(s, about, settled), version)
    ensures RowOf(MotherTables.Touch(s, hb, now), push.report.about, push.informed) == Touch(RowOf(s, about, settled), push)
  {
  }

  /** updateState of admin.go. */
  function UpdateState(row: Row): (state: string)
    ensures state == "failed" <==> row.desired != "" && row.desired != row.version && row.err != ""
    ensures state == "pending" <==> row.desired != "" && row.desired != row.version && row.err == ""
    ensures state == "idle" <==> row.desired == "" || row.desired == row.version
  {
    if row.desired == "" || row.desired == row.version then "idle"
    else if row.err != "" then "failed"
    else "pending"
  }

  // ----- Steps -----

  function Outdate(push: Push): Push {
    push.(counted := false, informed := false)
  }

  function OutdateFlight(flight: Flight): Flight {
    match flight
    case Idle => Idle
    case Sent(push) => Sent(Outdate(push))
    case Answered(push, reply) => Answered(Outdate(push), reply)
  }

  function OutdateAll(strays: seq<Push>): seq<Push> {
    seq(|strays|, i requires 0 <= i < |strays| => Outdate(strays[i]))
  }

  function NewPush(s: System): Push {
    Push(Report(s.agent.version, s.agent.updateErr, s.agent.updateTarget), true, s.landed >= 1)
  }

  /** A request that was not answered may still be on its way. */
  function Abandoned(s: System): seq<Push> {
    if s.flight.Sent? then s.strays + [s.flight.push] else s.strays
  }

  function Landed(s: System, now: int, update: Outcome, uninstall: Option<Outcome>): System
    requires s.flight.Answered?
  {
    s.(agent := After(s.agent, Round(Some(s.flight.reply), now, update, uninstall)), flight := Idle,
    landed := if s.flight.push.counted && !s.flight.reply.uninstall then s.landed + 1 else s.landed)
  }

  function Targeted(s: System, version: string): System {
    System(Target(s.row, version), s.agent, OutdateFlight(s.flight), OutdateAll(s.strays), 0)
  }

  function Next(s: System, e: Event): Option<System> {
    match e
    case SetTarget(v) => Some(Targeted(s, v))
    case RequestRemoval => Some(s.(row := s.row.(removing := true)))
    case Begin => if s.flight.Idle? then Some(s.(flight := Sent(NewPush(s)))) else None
    case Handle(stored, collectors, interval) =>
      if s.flight.Sent? then
        Some(s.(row := if stored then Touch(s.row, s.flight.push) else s.row,
             flight := Answered(s.flight.push, Response(collectors, interval, s.row.desired, s.row.removing))))
      else None
    case HandleLate(i, stored) =>
      if i < |s.strays| then
        Some(s.(row := if stored then Touch(s.row, s.strays[i]) else s.row, strays := s.strays[..i] + s.strays[i + 1..]))
      else None
    case GiveUp => if s.flight.Idle? then None else Some(s.(flight := Idle, strays := Abandoned(s)))
    case Land(now, update, uninstall) => if s.flight.Answered? then Some(Landed(s, now, update, uninstall)) else None
    case Restart(v) => Some(s.(agent := New(v), flight := Idle, strays := Abandoned(s)))
  }

  /** A push reports what the agent runs and its last update error; the answer is the row's target and removal. */
  lemma ExchangeExactly(s: System, stored: bool, collectors: seq<string>, interval: int)
    requires s.flight.Idle?
    ensures var sent := Next(s, Begin);
            && sent.Some? && sent.value.row == s.row && sent.value.agent == s.agent
            && var answered := Next(sent.value, Handle(stored, collectors, interval));
               && answered.Some? && answered.value.flight.Answered? && answered.value.agent == s.agent
               && answered.value.flight.reply == AgentLoop.Response(collectors, interval, s.row.desired, s.row.removing)
               && answered.value.row.desired == s.row.desired && answered.value.row.removing == s.row.removing
               && answered.value.row.version == (if stored then s.agent.version else s.row.version)
               && answered.value.row.err == (if stored then s.agent.updateErr else s.row.err)
  {
  }

  function Follow(s: System, events: seq<Event>): Option<System> {
    if events == [] then Some(s)
    else
      var before := Follow(s, events[..|events| - 1]);
      if before.Some? then Next(before.value, events[|events| - 1]) else None
  }

  // ----- What every step keeps -----

  /** A report that blames nothing but `target`. */
  predicate Concerns(err: string, about: string, target: string) {
    err == "" || about == target
  }

  predicate PushOk(push: Push, desired: string) {
    push.informed ==> push.counted && Concerns(push.report.err, push.report.about, desired)
  }

  ghost predicate Inv(s: System) {
    && (s.row.settled ==> Concerns(s.row.err, s.row.about, s.row.desired))
    && (s.landed >= 1 ==> Concerns(s.agent.updateErr, s.agent.updateTarget, s.row.desired))
    && (!s.flight.Idle? ==> PushOk(s.flight.push, s.row.desired) && (!s.flight.push.counted ==> s.landed == 0))
    && (s.flight.Answered? && s.flight.push.counted ==> s.flight.reply.desired == s.row.desired)
    && (forall i :: 0 <= i < |s.strays| ==> PushOk(s.strays[i], s.row.desired))
  }

  /** An answer naming a target leaves the agent with no error, or with one about that target. */
  lemma LandingInforms(a: Agent, r: Response, now: int, update: Outcome, uninstall: Option<Outcome>)
    ensures var b := After(a, Round(Some(r), now, update, uninstall));
            if r.uninstall then b.updateErr == a.updateErr && b.updateTarget == a.updateTarget
            else Concerns(b.updateErr, b.updateTarget, r.desired)
  {
  }

  lemma StepKeepsInv(s: System, e: Event, t: System)
    requires Inv(s) && Next(s, e) == Some(t)
    ensures Inv(t)
  {
    match e
    case Land(now, update, uninstall) => LandingInforms(s.agent, s.flight.reply, now, update, uninstall);
    case HandleLate(i, stored) =>
      forall k | 0 <= k < |t.strays| ensures PushOk(t.strays[k], t.row.desired) {
        assert t.strays[k] in s.strays;
      }
    case _ =>
  }

  lemma {:induction false} RunKeepsInv(s: System, events: seq<Event>, t: System)
    requires Inv(s) && Follow(s, events) == Some(t)
    ensures Inv(t)
  {
    if events != [] {
      var before := Follow(s, events[..|events| - 1]).value;
      RunKeepsInv(s, events[..|events| - 1], before);
      StepKeepsInv(before, events[|events| - 1], t);
    }
  }

  /** Whoever it was before, and whatever it was told: a row and an agent process with nothing yet between them. */
  function Start(row: Row, version: string): System {
    System(row.(settled := false), New(version), Idle, [], 0)
  }

  /**
   Over every run: while the error was last written by SetDesiredVersion, or by a push begun after an answer
   naming the current target had landed, it concerns that target; a row then projected as failed is one whose
   current target failed.
   */
  lemma StoredErrorIsCurrent(row: Row, version: string, events: seq<Event>, t: System)
    requires Follow(Start(row, version), events) == Some(t) && t.row.settled
    ensures Concerns(t.row.err, t.row.about, t.row.desired)
    ensures UpdateState(t.row) == "failed" ==> t.row.about == t.row.desired
  {
    RunKeepsInv(Start(row, version), events, t);
  }

  // ----- From the second landed push on -----

  /** The events of a spell under one target in which pushes are stored and none arrives late. */
  predicate Orderly(e: Event) {
    !e.SetTarget? && !e.HandleLate? && (e.Handle? ==> e.stored)
  }

  ghost predicate AllOrderly(events: seq<Event>) {
    forall i :: 0 <= i < |events| ==> Orderly(events[i])
  }

  predicate Spell(s: System) {
    && (s.landed >= 2 ==> s.row.settled)
    && (!s.flight.Idle? ==> s.flight.push.informed == (s.landed >= 1))
    && (s.flight.Answered? && s.landed >= 1 ==> s.row.settled)
  }

  lemma StepKeepsSpell(s: System, e: Event, t: System)
    requires Spell(s) && Next(s, e) == Some(t) && Orderly(e)
    ensures Spell(t) && t.row.desired == s.row.desired
  {
  }

  lemma {:induction false} RunKeepsSpell(s: System, events: seq<Event>, t: System)
    requires Spell(s) && AllOrderly(events) && Follow(s, events) == Some(t)
    ensures Spell(t) && t.row.desired == s.row.desired
  {
    if events != [] {
      var before := Follow(s, events[..|events| - 1]).value;
      assert Orderly(events[|events| - 1]);
      RunKeepsSpell(s, events[..|events| - 1], before);
      StepKeepsSpell(before, events[|events| - 1], t);
    }
  }

  /** From the second landed push begun after a target was set, the row's error concerns that target only. */
  lemma SecondPushSettles(s: System, version: string, events: seq<Event>, t: System)
    requires Inv(s) && AllOrderly(events) && Follow(Targeted(s, version), events) == Some(t) && t.landed >= 2
    ensures t.row.settled && t.row.desired == version && Concerns(t.row.err, t.row.about, version)
  {
    var u := Targeted(s, version);
    StepKeepsInv(s, SetTarget(version), u);
    RunKeepsInv(u, events, t);
    RunKeepsSpell(u, events, t);
  }

  // ----- Both conditions are needed -----

  lemma OneMore(s: System, events: seq<Event>, e: Event)
    requires Follow(s, events).Some?
    ensures Follow(s, events + [e]) == Next(Follow(s, events).value, e)
  {
    assert (events + [e])[..|events|] == events;
  }

  /**
   One landed push is enough exactly when the agent had no error, or one about that very target: the first push
   begun after the new target still reports on the old one.
   */
  lemma FirstPushMayBeStale(s: System, version: string, now: int, update: Outcome) returns (events: seq<Event>, t: System)
    requires s.flight.Idle?
    ensures AllOrderly(events) && Follow(Targeted(s, version), events) == Some(t)
    ensures t.row.desired == version && t.landed == (if s.row.removing then 0 else 1)
    ensures Concerns(t.row.err, t.row.about, version) <==> Concerns(s.agent.updateErr, s.agent.updateTarget, version)
  {
    var begin, handle, land := Begin, Handle(true, [], 0), Land(now, update, None);
    var u := Targeted(s, version);
    assert Follow(u, []) == Some(u);
    OneMore(u, [], begin);
    OneMore(u, [begin], handle);
    OneMore(u, [begin, handle], land);
    assert [begin] + [handle] + [land] == [begin, handle, land];
    events := [begin, handle, land];
    t := Follow(u, events).value;
  }

  lemma {:induction false} FollowConcat(s: System, es: seq<Event>, mid: System, fs: seq<Event>)
    requires Follow(s, es) == Some(mid)
    ensures Follow(s, es + fs) == Follow(mid, fs)
    decreases |fs|
  {
    if fs == [] {
      assert es + fs == es;
    } else {
      assert (es + fs)[..|es + fs| - 1] == es + fs[..|fs| - 1];
      FollowConcat(s, es, mid, fs[..|fs| - 1]);
    }
  }

  function Answer(s: System): Response {
    Response([], 0, s.row.desired, false)
  }

  /** One push, landed: what the row says is what the agent is told. */
  lemma OnePush(s: System, update: Outcome) returns (events: seq<Event>, t: System)
    requires s.flight.Idle? && !s.row.removing
    ensures Follow(s, events) == Some(t) && t.flight.Idle? && t.strays == s.strays && t.landed == s.landed + 1
    ensures t.row.desired == s.row.desired && !t.row.removing
    ensures t.agent == After(s.agent, Round(Some(Answer(s)), 0, update, None))
  {
    var begin, handle, land := Begin, Handle(true, [], 0), Land(0, update, None);
    assert Follow(s, []) == Some(s);
    OneMore(s, [], begin);
    OneMore(s, [begin], handle);
    OneMore(s, [begin] + [handle], land);
    events := [begin] + [handle] + [land];
    t := Follow(s, events).value;
  }

  lemma {:induction false} ManyPushes(s: System, n: nat) returns (events: seq<Event>, t: System)
    requires s.flight.Idle? && !s.row.removing
    ensures Follow(s, events) == Some(t) && t.flight.Idle? && t.strays == s.strays && t.landed == s.landed + n
    ensures t.row.desired == s.row.desired && !t.row.removing
    decreases n
  {
    if n == 0 {
      events, t := [], s;
    } else {
      var first, mid, rest;
      first, mid := OnePush(s, Done);
      rest, t := ManyPushes(mid, n - 1);
      FollowConcat(s, first, mid, rest);
      events := first + rest;
    }
  }

  /** A push given up on while it carries an error about a target, which is then replaced. */
  lemma StrayLeftBehind(row: Row, version: string, first: string, second: string, msg: string)
    returns (events: seq<Event>, t: System)
    requires !row.removing && first != "" && first != version && msg != ""
    ensures Follow(Start(row, version), events) == Some(t) && t.flight.Idle? && t.landed == 0
    ensures t.row.desired == second && !t.row.removing
    ensures |t.strays| == 1 && t.strays[0].report == Report(version, msg, first)
  {
    var s, target, retarget := Start(row, version), SetTarget(first), SetTarget(second);
    var begin, giveUp := Begin, GiveUp;
    assert Follow(s, []) == Some(s);
    OneMore(s, [], target);
    var aimed := Targeted(s, first);
    var push, failed := OnePush(aimed, Failed(msg));
    FollowConcat(s, [target], aimed, push);
    var sofar := [target] + push;
    OneMore(s, sofar, begin);
    OneMore(s, sofar + [begin], giveUp);
    OneMore(s, sofar + [begin] + [giveUp], retarget);
    events := sofar + [begin] + [giveUp] + [retarget];
    t := Follow(s, events).value;
  }

  /** A request given up on and stored late puts its own error back: the row is about the target exactly when it is. */
  lemma LateRequestUnsettles(s: System, i: nat, t: System)
    requires i < |s.strays| && Next(s, HandleLate(i, true)) == Some(t)
    ensures var report := s.strays[i].report;
            && t.landed == s.landed
            && (Concerns(t.row.err, t.row.about, t.row.desired) <==> Concerns(report.err, report.about, s.row.desired))
  {
  }

  /** However many pushes have landed since, a late one can blame the row's target for another's failure. */
  lemma LateRequestMisblames(row: Row, version: string, first: string, second: string, msg: string, n: nat)
    returns (events: seq<Event>, t: System)
    requires !row.removing && first != "" && first != version && first != second && msg != ""
    ensures Follow(Start(row, version), events) == Some(t) && t.landed == n && t.row.desired == second
    ensures t.row.err == msg && t.row.about == first && !Concerns(t.row.err, t.row.about, t.row.desired)
  {
    var s := Start(row, version);
    var before, stray := StrayLeftBehind(row, version, first, second, msg);
    var pushes, settled := ManyPushes(stray, n);
    FollowConcat(s, before, stray, pushes);
    var late := HandleLate(0, true);
    OneMore(s, before + pushes, late);
    events := before + pushes + [late];
    t := Follow(s, events).value;
    LateRequestUnsettles(settled, 0, t);
  }
}
