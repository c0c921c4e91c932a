/** The agent's push loop of agent/loop.go: what an answer triggers, and how often. */
module AgentLoop {
  import opened Wrappers

  // Instants are nanoseconds.
  const SECOND := 1_000_000_000
  const UPDATE_RETRY_GAP := 300 * SECOND
  const UNINSTALL_RETRY_GAP := 300 * SECOND
  const DEFAULT_INTERVAL := 10

  const NO_UNINSTALLER := "this agent cannot remove itself (no uninstaller wired in)"

  datatype Response = Response(collectors: seq<string>, interval: int, desired: string, uninstall: bool)

  /** A call that did what it should, or the message of the error it returned. */
  datatype Outcome = Done | Failed(msg: string)

  function Message(o: Outcome): string {
    if o.Done? then "" else o.msg
  }

  /** Loop's fields. A zero time.Time is None: it is never within a retry gap of now. */
  datatype Agent = Agent(
    version: string, enabled: seq<string>, interval: int, pushed: bool,
    updateErr: string, updateTarget: string, lastUpdateAt: Option<int>,
    uninstallErr: string, lastUninstallAt: Option<int>)

  /**
   One push and its aftermath: the answer if it landed, the time, and what update and uninstall return
   if they are called; no uninstall when the deployment has none.
   */
  datatype Round = Round(reply: Option<Response>, now: int, update: Outcome, uninstall: Option<Outcome>)

  function New(version: string): Agent {
    Agent(version, ["cpu", "memory", "uptime", "disk"], DEFAULT_INTERVAL, false, "", "", None, "", None)
  }

  function Within(last: Option<int>, now: int, gap: int): bool {
    last.Some? && now - last.value < gap
  }

  /** What PushOnce does with a landed answer. */
  function Learn(a: Agent, r: Response): Agent {
    a.(pushed := true,
    enabled := if r.collectors != [] then r.collectors else a.enabled,
    interval := if r.interval > 0 then r.interval else a.interval)
  }

  predicate Outstanding(a: Agent, r: Response) {
    !r.uninstall && r.desired != "" && r.desired != a.version
  }

  /** Does this round call update, and with which target? */
  function UpdateCall(a: Agent, round: Round): Option<string> {
    if round.reply.Some? && Outstanding(a, round.reply.value)
       && !(round.reply.value.desired == a.updateTarget && Within(a.lastUpdateAt, round.now, UPDATE_RETRY_GAP))
    then Some(round.reply.value.desired) else None
  }

  /** Does this round call uninstall? */
  predicate UninstallCall(a: Agent, round: Round) {
    round.reply.Some? && round.reply.value.uninstall && round.uninstall.Some?
    && !Within(a.lastUninstallAt, round.now, UNINSTALL_RETRY_GAP)
  }

  function Forget(a: Agent): Agent {
    a.(updateErr := "", updateTarget := "", lastUpdateAt := None)
  }

  /** The state RunOnce leaves. */
  function After(a: Agent, round: Round): Agent {
    if round.reply.None? then a
    else
      var r, b := round.reply.value, Learn(a, round.reply.value);
      if r.uninstall then
        if round.uninstall.None? then b.(uninstallErr := NO_UNINSTALLER)
        else if UninstallCall(a, round) then
          b.(lastUninstallAt := Some(round.now), uninstallErr := Message(round.uninstall.value))
        else b
      else if !Outstanding(a, r) then Forget(b)
      else if UpdateCall(a, round).Some? then
        b.(updateTarget := r.desired, lastUpdateAt := Some(round.now), updateErr := Message(round.update))
      else b
  }

  class Loop {
    const version: string
    var enabled: seq<string>
    var interval: int
    var pushed: bool
    var updateErr: string
    var updateTarget: string
    var lastUpdateAt: Option<int>
    var uninstallErr: string
    var lastUninstallAt: Option<int>
    /** The calls made so far. */
    ghost var updates: seq<(string, int)>
    ghost var removals: seq<int>

    ghost function State(): Agent
      reads this
    {
      Agent(version, enabled, interval, pushed, updateErr, updateTarget, lastUpdateAt, uninstallErr, lastUninstallAt)
    }

    constructor (version: string)
      ensures State() == New(version) && updates == [] && removals == []
    {
      this.version := version;
      enabled, interval, pushed := ["cpu", "memory", "uptime", "disk"], DEFAULT_INTERVAL, false;
      updateErr, updateTarget, lastUpdateAt := "", "", None;
      uninstallErr, lastUninstallAt := "", None;
      updates, removals := [], [];
    }

    method PushOnce(reply: Option<Response>) returns (landed: bool)
      modifies this
      ensures landed <==> reply.Some?
      ensures State() == if reply.Some? then Learn(old(State()), reply.value) else old(State())
      ensures updates == old(updates) && removals == old(removals)
    {
      if reply.None? {
        return false;
      }
      pushed := true;
      if |reply.value.collectors| > 0 {
        enabled := reply.value.collectors;
      }
      if reply.value.interval > 0 {
        interval := reply.value.interval;
      }
      return true;
    }

    method RunOnce(round: Round)
      modifies this
      ensures State() == After(old(State()), round)
      ensures var call := UpdateCall(old(State()), round);
              updates == old(updates) + (if call.Some? then [(call.value, round.now)] else [])
      ensures removals == old(removals) + (if UninstallCall(old(State()), round) then [round.now] else [])
    {
      var landed := PushOnce(round.reply);
      if !landed {
        return;
      }
      var resp := round.reply.value;
      if resp.uninstall {
        TryUninstall(round.now, round.uninstall);
        return;
      }
      if resp.desired == "" || resp.desired == version {
        ForgetUpdate();
        return;
      }
      TryUpdate(resp.desired, round.now, round.update);
    }

    method TryUninstall(now: int, uninstall: Option<Outcome>)
      modifies this`uninstallErr, this`lastUninstallAt, this`removals
      ensures uninstall.None? ==>
                uninstallErr == NO_UNINSTALLER && lastUninstallAt == old(lastUninstallAt) && removals == old(removals)
      ensures uninstall.Some? && Within(old(lastUninstallAt), now, UNINSTALL_RETRY_GAP) ==>
                uninstallErr == old(uninstallErr) && lastUninstallAt == old(lastUninstallAt) && removals == old(removals)
      ensures uninstall.Some? && !Within(old(lastUninstallAt), now, UNINSTALL_RETRY_GAP) ==>
                uninstallErr == Message(uninstall.value) && lastUninstallAt == Some(now) && removals == old(removals) + [now]
    {
      if uninstall.None? {
        uninstallErr := NO_UNINSTALLER;
        return;
      }
      if lastUninstallAt.Some? && now - lastUninstallAt.value < UNINSTALL_RETRY_GAP {
        return;
      }
      lastUninstallAt := Some(now);
      removals := removals + [now];
      if uninstall.value.Failed? {
        uninstallErr := uninstall.value.msg;
        return;
      }
      uninstallErr := "";
    }

    method TryUpdate(desired: string, now: int, update: Outcome)
      modifies this`updateErr, this`updateTarget, this`lastUpdateAt, this`updates
      ensures var gated := desired == old(updateTarget) && Within(old(lastUpdateAt), now, UPDATE_RETRY_GAP);
              if gated then
                updateErr == old(updateErr) && updateTarget == old(updateTarget) && lastUpdateAt == old(lastUpdateAt)
                && updates == old(updates)
              else
                updateErr == Message(update) && updateTarget == desired && lastUpdateAt == Some(now)
                && updates == old(updates) + [(desired, now)]
    {
      if desired == updateTarget && lastUpdateAt.Some? && now - lastUpdateAt.value < UPDATE_RETRY_GAP {
        return;
      }
      updateTarget, lastUpdateAt := desired, Some(now);
      updates := updates + [(desired, now)];
      if update.Failed? {
        updateErr := update.msg;
        return;
      }
      updateErr := "";
    }

    method ForgetUpdate()
      modifies this`updateErr, this`updateTarget, this`lastUpdateAt
      ensures updateErr == "" && updateTarget == "" && lastUpdateAt == None
    {
      updateErr, updateTarget, lastUpdateAt := "", "", None;
    }
  }

  // ----- Runs of one process -----

  function Rounds(a: Agent, rounds: seq<Round>): Agent {
    if rounds == [] then a else After(Rounds(a, rounds[..|rounds| - 1]), rounds[|rounds| - 1])
  }

  /** The times update was called. */
  function UpdateTimes(a: Agent, rounds: seq<Round>): seq<int> {
    if rounds == [] then []
    else
      var init, last := rounds[..|rounds| - 1], rounds[|rounds| - 1];
      UpdateTimes(a, init) + (if UpdateCall(Rounds(a, init), last).Some? then [last.now] else [])
  }

  function RemovalTimes(a: Agent, rounds: seq<Round>): seq<int> {
    if rounds == [] then []
    else
      var init, last := rounds[..|rounds| - 1], rounds[|rounds| - 1];
      RemovalTimes(a, init) + (if UninstallCall(Rounds(a, init), last) then [last.now] else [])
  }

  ghost predicate Spaced(times: seq<int>, gap: int) {
    forall i :: 0 <= i < |times| - 1 ==> times[i + 1] - times[i] >= gap
  }

  /** Every answer that lands either carries a removal or names this target. */
  ghost predicate Names(rounds: seq<Round>, target: string) {
    forall i :: 0 <= i < |rounds| && rounds[i].reply.Some? && !rounds[i].reply.value.uninstall ==>
      rounds[i].reply.value.desired == target
  }

  /** While one target is named, update attempts are at least the gap apart, whatever fails or is removed in between. */
  lemma {:induction false} UpdatesSpaced(a: Agent, rounds: seq<Round>, target: string)
    requires Names(rounds, target) && target != "" && target != a.version
    ensures Spaced(UpdateTimes(a, rounds), UPDATE_RETRY_GAP)
    ensures Rounds(a, rounds).version == a.version
    ensures var times := UpdateTimes(a, rounds);
            times != [] ==> Rounds(a, rounds).updateTarget == target && Rounds(a, rounds).lastUpdateAt == Some(times[|times| - 1])
  {
    if rounds != [] {
      var init, last := rounds[..|rounds| - 1], rounds[|rounds| - 1];
      assert Names(init, target);
      UpdatesSpaced(a, init, target);
      assert last == rounds[|rounds| - 1];
    }
  }

  /** Removal attempts are at least the gap apart in every run of a process. */
  lemma {:induction false} RemovalsSpaced(a: Agent, rounds: seq<Round>)
    ensures Spaced(RemovalTimes(a, rounds), UNINSTALL_RETRY_GAP)
    ensures var times := RemovalTimes(a, rounds);
            times != [] ==> Rounds(a, rounds).lastUninstallAt == Some(times[|times| - 1])
  {
    if rounds != [] {
      RemovalsSpaced(a, rounds[..|rounds| - 1]);
    }
  }

  lemma {:induction false} SpacedSpan(times: seq<int>, gap: int, i: nat, j: nat)
    requires gap > 0 && Spaced(times, gap) && i <= j < |times|
    ensures times[j] - times[i] >= (j - i) * gap
    decreases j - i
  {
    if i < j {
      SpacedSpan(times, gap, i, j - 1);
      assert (j - i) * gap == (j - 1 - i) * gap + gap;
    }
  }

  /** Any span of `seconds` seconds contains at most seconds / 300 + 1 update attempts at the named target. */
  lemma ThrottleBound(a: Agent, rounds: seq<Round>, target: string, i: nat, j: nat, seconds: nat)
    requires Names(rounds, target) && target != "" && target != a.version
    requires i <= j < |UpdateTimes(a, rounds)|
    requires UpdateTimes(a, rounds)[j] - UpdateTimes(a, rounds)[i] <= seconds * SECOND
    ensures j - i + 1 <= seconds / 300 + 1
  {
    UpdatesSpaced(a, rounds, target);
    SpacedSpan(UpdateTimes(a, rounds), UPDATE_RETRY_GAP, i, j);
  }

  lemma OneMore(a: Agent, rounds: seq<Round>, last: Round)
    ensures Rounds(a, rounds + [last]) == After(Rounds(a, rounds), last)
    ensures UpdateTimes(a, rounds + [last])
         == UpdateTimes(a, rounds) + (if UpdateCall(Rounds(a, rounds), last).Some? then [last.now] else [])
  {
    assert (rounds + [last])[..|rounds|] == rounds;
  }

  /** Another target than the remembered one is attempted in the round that names it. */
  lemma ActsAtOnce(a: Agent, rounds: seq<Round>, x: Round, more: seq<Round>)
    requires x.reply.Some? && Outstanding(a, x.reply.value) && more == rounds + [x]
    requires Rounds(a, rounds).version == a.version && Rounds(a, rounds).updateTarget != x.reply.value.desired
    ensures UpdateTimes(a, more) == UpdateTimes(a, rounds) + [x.now]
    ensures Rounds(a, more).version == a.version && Rounds(a, more).updateTarget == x.reply.value.desired
  {
    OneMore(a, rounds, x);
  }

  /** The naming hypothesis is needed: two targets named in turn are each attempted at once, every time. */
  lemma RetargetingResetsGap(a: Agent, rounds: seq<Round>, x: Round, y: Round)
    requires x.reply.Some? && Outstanding(a, x.reply.value) && y.reply.Some? && Outstanding(a, y.reply.value)
    requires x.reply.value.desired != y.reply.value.desired
    requires Rounds(a, rounds).version == a.version && Rounds(a, rounds).updateTarget != x.reply.value.desired
    ensures UpdateTimes(a, rounds + [x] + [y] + [x]) == UpdateTimes(a, rounds) + [x.now, y.now, x.now]
  {
    var one, two := rounds + [x], rounds + [x] + [y];
    ActsAtOnce(a, rounds, x, one);
    ActsAtOnce(a, one, y, two);
    ActsAtOnce(a, two, x, two + [x]);
  }

  // ----- Reported errors -----

  datatype Attempt = Attempt(target: string, outcome: Outcome)

  /** The last update call of a run, if any. */
  function LastAttempt(a: Agent, rounds: seq<Round>): Option<Attempt> {
    if rounds == [] then None
    else
      var init, last := rounds[..|rounds| - 1], rounds[|rounds| - 1];
      var call := UpdateCall(Rounds(a, init), last);
      if call.Some? then Some(Attempt(call.value, last.update)) else LastAttempt(a, init)
  }

  /** The target of the last answer that landed and carried no removal. */
  function LastWord(rounds: seq<Round>): string {
    if rounds == [] then ""
    else
      var reply := rounds[|rounds| - 1].reply;
      if reply.Some? && !reply.value.uninstall then reply.value.desired else LastWord(rounds[..|rounds| - 1])
  }

  /**
   The remembered target is what the mother last asked for, and nothing once that is nothing or the version
   running; a reported update error is the outcome of the last attempt, and that attempt was at it.
   */
  lemma {:induction false} ErrorIsLastAttempts(version: string, rounds: seq<Round>)
    ensures var a, last := Rounds(New(version), rounds), LastAttempt(New(version), rounds);
            && a.version == version
            && a.updateTarget == (if LastWord(rounds) == version then "" else LastWord(rounds))
            && (a.updateTarget != "" ==> last.Some? && last.value.target == a.updateTarget
                                         && a.updateErr == (if last.value.outcome.Done? then "" else last.value.outcome.msg))
            && (a.updateTarget == "" ==> a.updateErr == "" && a.lastUpdateAt == None)
  {
    if rounds != [] {
      ErrorIsLastAttempts(version, rounds[..|rounds| - 1]);
    }
  }

  // ----- Exactly when a call is made -----

  /** What the next round of a process compares with: its last calls. */
  lemma {:induction false} RemembersCalls(version: string, rounds: seq<Round>)
    ensures var a, times := Rounds(New(version), rounds), UpdateTimes(New(version), rounds);
            a.updateTarget != "" ==> times != [] && a.lastUpdateAt == Some(times[|times| - 1])
    ensures var a, times := Rounds(New(version), rounds), RemovalTimes(New(version), rounds);
            a.lastUninstallAt == if times == [] then None else Some(times[|times| - 1])
  {
    if rounds != [] {
      RemembersCalls(version, rounds[..|rounds| - 1]);
    }
  }

  /**
   A round calls update exactly when its answer names a version that does not run, removal not being asked for, and
   that version is not the one last named or 300 seconds have passed since the last call; it calls it with that version.
   */
  lemma UpdateCalledExactly(version: string, rounds: seq<Round>, x: Round)
    ensures var call, times := UpdateCall(Rounds(New(version), rounds), x), UpdateTimes(New(version), rounds);
            && (call.Some? <==>
                 x.reply.Some? && !x.reply.value.uninstall && x.reply.value.desired != "" && x.reply.value.desired != version
                 && (x.reply.value.desired != LastWord(rounds) || times == [] || x.now - times[|times| - 1] >= 300 * SECOND))
            && (call.Some? ==> call.value == x.reply.value.desired)
  {
    RemembersCalls(version, rounds);
    ErrorIsLastAttempts(version, rounds);
  }

  /** A round calls uninstall exactly when it is asked to and can, and 300 seconds have passed since the last call. */
  lemma UninstallCalledExactly(version: string, rounds: seq<Round>, x: Round)
    ensures var times := RemovalTimes(New(version), rounds);
            UninstallCall(Rounds(New(version), rounds), x) <==>
            x.reply.Some? && x.reply.value.uninstall && x.uninstall.Some?
            && (times == [] || x.now - times[|times| - 1] >= 300 * SECOND)
  {
    RemembersCalls(version, rounds);
  }

  /** What is reported about removal: of the last round asked for it that called it, or could not. */
  function RemovalReport(version: string, rounds: seq<Round>): string {
    if rounds == [] then ""
    else
      var init, last := rounds[..|rounds| - 1], rounds[|rounds| - 1];
      if last.reply.None? || !last.reply.value.uninstall then RemovalReport(version, init)
      else if last.uninstall.None? then "this agent cannot remove itself (no uninstaller wired in)"
      else if |RemovalTimes(New(version), rounds)| == |RemovalTimes(New(version), init)| then RemovalReport(version, init)
      else if last.uninstall.value.Done? then "" else last.uninstall.value.msg
  }

  lemma {:induction false} RemovalErrorIsReported(version: string, rounds: seq<Round>)
    ensures Rounds(New(version), rounds).uninstallErr == RemovalReport(version, rounds)
  {
    if rounds != [] {
      RemovalErrorIsReported(version, rounds[..|rounds| - 1]);
    }
  }

  // ----- What answers change for good -----

  function LastCollectors(rounds: seq<Round>): seq<string> {
    if rounds == [] then ["cpu", "memory", "uptime", "disk"]
    else
      var reply := rounds[|rounds| - 1].reply;
      if reply.Some? && reply.value.collectors != [] then reply.value.collectors else LastCollectors(rounds[..|rounds| - 1])
  }

  function LastInterval(rounds: seq<Round>): int {
    if rounds == [] then 10
    else
      var reply := rounds[|rounds| - 1].reply;
      if reply.Some? && reply.value.interval > 0 then reply.value.interval else LastInterval(rounds[..|rounds| - 1])
  }

  /** Collectors and interval are those of the last answer that named any, the defaults until then. */
  lemma {:induction false} LearnsTheLastNamed(version: string, rounds: seq<Round>)
    ensures var a := Rounds(New(version), rounds);
            && a.enabled == LastCollectors(rounds) && a.interval == LastInterval(rounds)
            && (a.pushed <==> exists i :: 0 <= i < |rounds| && rounds[i].reply.Some?)
  {
    if rounds != [] {
      var init := rounds[..|rounds| - 1];
      LearnsTheLastNamed(version, init);
      assert forall i :: 0 <= i < |init| ==> rounds[i] == init[i];
    }
  }
}
