/** The mother's own rollout: the stored row, and the crash-restart machine around it. */
module MotherUpdate {
  import opened Wrappers
  import NaturalOrder
  import Placement

  // ----- The row (mother/store/motherupdate.go) -----

  datatype Row = Row(desired: string, staged: string, attempts: nat, error: string, requestedAt: int, appliedAt: int)

  const NO_INTENT := Row("", "", 0, "", 0, 0)

  /** An absent row reads as no intent. */
  function Read(row: Option<Row>): Row {
    if row.None? then NO_INTENT else row.value
  }

  function SetDesired(row: Option<Row>, version: string, now: int): Option<Row> {
    Some(Row(version, "", 0, "", now, Read(row).appliedAt))
  }

  // The UPDATE statements change nothing while the row is absent.

  function Begin(row: Option<Row>): Option<Row> {
    if row.None? then row else Some(row.value.(attempts := row.value.attempts + 1, error := ""))
  }

  function Stage(row: Option<Row>, version: string): Option<Row> {
    if row.None? then row else Some(row.value.(staged := version))
  }

  function RecordError(row: Option<Row>, msg: string): Option<Row> {
    if row.None? then row else Some(row.value.(error := msg))
  }

  function Fail(row: Option<Row>, msg: string): Option<Row> {
    if row.None? then row else Some(row.value.(desired := "", staged := "", error := msg))
  }

  function Clear(row: Option<Row>, appliedAt: int): Option<Row> {
    Some(Row("", "", 0, "", Read(row).requestedAt, appliedAt))
  }

  datatype State = Unsupported | FailedState | IdleState | Pending

  /** motherUpdateState (mother/api/mother.go). */
  function StateOf(row: Row, running: string, supported: bool): (state: State)
    ensures state == FailedState <==> supported && row.error != ""
    ensures state == Pending <==> supported && row.error == "" && row.desired != "" && row.desired != running
    ensures state == Unsupported <==> !supported
  {
    if !supported then Unsupported
    else if row.error != "" then FailedState
    else if row.desired == "" || row.desired == running then IdleState
    else Pending
  }

  // ----- Messages -----

  function Decimal(n: nat): string {
    (if n < 10 then "" else Decimal(n / 10)) + [(n % 10 + '0' as int) as char]
  }

  function LastReason(msg: string): string {
    if msg == "" then "no reason recorded" else msg
  }

  function GaveUp(row: Row): (msg: string)
    ensures msg != ""
  {
    "gave up on " + row.desired + " after " + Decimal(row.attempts) + " attempts: " + LastReason(row.error)
  }

  function NotPromoted(row: Row, running: string): (msg: string)
    ensures msg != ""
  {
    "staged " + row.staged + " but " + running + " is still running: the promote step did not take"
  }

  // ----- Decisions -----

  predicate Wanted(row: Row, running: string) {
    row.desired != "" && row.desired != running
  }

  predicate GivesUp(row: Row, running: string, max: nat) {
    Wanted(row, running) && row.attempts >= max
  }

  datatype Transfer = Broken(msg: string) | Complete

  /** What one uninterrupted Tick leaves in the row. */
  function TickRow(row: Option<Row>, running: string, max: nat, supported: bool,
                   counted: bool, reread: bool, transfer: Transfer, noted: bool): Option<Row>
  {
    var r := Read(row);
    if !Wanted(r, running) || !supported then row
    else if r.attempts >= max then (if counted then Fail(row, GaveUp(r)) else row)
    else if !counted then row
    else if !reread then Begin(row)
    else AttemptRow(Begin(row), r.desired, transfer, noted)
  }

  /** The part of it after the attempt has been counted. */
  function AttemptRow(row: Option<Row>, desired: string, transfer: Transfer, noted: bool): Option<Row> {
    if !noted then row
    else match transfer
      case Broken(msg) => RecordError(row, msg)
      case Complete => Stage(row, desired)
  }

  /** What Reconcile leaves in the row. */
  function ReconcileRow(seen: Row, row: Option<Row>, running: string, now: int): Option<Row> {
    if seen.desired == "" then row
    else if seen.desired == running then Clear(row, now)
    else if seen.staged != "" then RecordError(row, NotPromoted(seen, running))
    else row
  }

  // ----- The row after each outcome, column by column -----

  lemma {:induction false} DecimalReads(n: nat)
    ensures NaturalOrder.Value(Decimal(n)) == n && Decimal(n) != "" && NaturalOrder.AllDigits(Decimal(n))
  {
    var last := [(n % 10 + '0' as int) as char];
    if n < 10 {
      assert Decimal(n) == last && Decimal(n)[..0] == "";
    } else {
      DecimalReads(n / 10);
      assert Decimal(n) == Decimal(n / 10) + last;
      assert Decimal(n)[..|Decimal(n)| - 1] == Decimal(n / 10);
    }
  }

  /**
   A tick that wants nothing, cannot update or cannot count leaves the row alone. One that gives up says on what, after
   how many attempts and for what reason. Any other counts one attempt and clears the last reason; a broken transfer
   then leaves its own, a complete one the staged version, if the write lands.
   */
  lemma TickOutcomes(r: Row, running: string, max: nat, supported: bool, counted: bool, reread: bool,
                     transfer: Transfer, noted: bool)
    ensures TickRow(Some(r), running, max, supported, counted, reread, transfer, noted) == Some(
              if r.desired == "" || r.desired == running || !supported || !counted then r
              else if r.attempts >= max then
                Row("", "", r.attempts,
                    "gave up on " + r.desired + " after " + Decimal(r.attempts) + " attempts: "
                    + (if r.error == "" then "no reason recorded" else r.error),
                    r.requestedAt, r.appliedAt)
              else if reread && noted && transfer.Broken? then
                Row(r.desired, r.staged, r.attempts + 1, transfer.msg, r.requestedAt, r.appliedAt)
              else if reread && noted then
                Row(r.desired, r.desired, r.attempts + 1, "", r.requestedAt, r.appliedAt)
              else
                Row(r.desired, r.staged, r.attempts + 1, "", r.requestedAt, r.appliedAt))
  {
  }

  /** A failed attempt is shown as failed with its reason, keeps its target, and the tick that gives up quotes it. */
  lemma FailureIsShown(r: Row, running: string, max: nat, msg: string)
    requires Wanted(r, running) && r.attempts < max && msg != ""
    ensures var failed := TickRow(Some(r), running, max, true, true, true, Broken(msg), true).value;
            && failed.error == msg && failed.desired == r.desired && failed.attempts == r.attempts + 1
            && StateOf(failed, running, true) == FailedState
            && (failed.attempts == max ==>
                 TickRow(Some(failed), running, max, true, true, true, Complete, true).value.error
                 == "gave up on " + r.desired + " after " + Decimal(max) + " attempts: " + msg)
  {
    TickOutcomes(r, running, max, true, true, true, Broken(msg), true);
    var failed := Row(r.desired, r.staged, r.attempts + 1, msg, r.requestedAt, r.appliedAt);
    if failed.attempts == max {
      TickOutcomes(failed, running, max, true, true, true, Complete, true);
    }
  }

  /**
   A boot clears a target that runs now and notes when; it blames a staged file that did not take and keeps the
   target, which is then shown as failed; otherwise it leaves the row alone.
   */
  lemma ReconcileOutcomes(r: Row, running: string, now: int)
    ensures ReconcileRow(r, Some(r), running, now) == Some(
              if r.desired != "" && r.desired == running then Row("", "", 0, "", r.requestedAt, now)
              else if r.desired != "" && r.staged != "" then
                Row(r.desired, r.staged, r.attempts,
                    "staged " + r.staged + " but " + running + " is still running: the promote step did not take",
                    r.requestedAt, r.appliedAt)
              else r)
    ensures Wanted(r, running) && r.staged != "" ==>
              StateOf(ReconcileRow(r, Some(r), running, now).value, running, true) == FailedState
  {
  }

  /** A new target starts from nothing but when the last update landed, and is pending unless it is none or runs already. */
  lemma TargetOutcome(row: Option<Row>, version: string, now: int, running: string)
    ensures var applied := if row.None? then 0 else row.value.appliedAt;
            SetDesired(row, version, now) == Some(Row(version, "", 0, "", now, applied))
    ensures StateOf(SetDesired(row, version, now).value, running, true)
         == if version == "" || version == running then IdleState else Pending
  {
  }

  // ----- The machine -----

  /** A binary, and the version it was downloaded for. */
  datatype Artifact = Artifact(content: Placement.Bytes, target: string)

  datatype Config = Config(max: nat, digest: Placement.Bytes -> string, versionOf: Placement.Bytes -> string)

  /** Where the process is between two of its atomic steps. */
  datatype Pc =
    | Down
    | Booted
    | Reconciling(seen: Row)
    | Idle
    | Deciding(seen: Row)
    | Counted(target: string)
    | Fetching(target: string, want: Option<string>)
    | Failing(msg: string)
    | Placed(target: string)
    | Recorded(target: string)

  /**
   `begun` and `downloads` count commits and transfers since the operator last set a target;
   `carried` says that a commit of an earlier target was still waiting for its transfer then. `answers` is
   every digest the release host has given so far, with the target it was asked for.
   */
  datatype World = World(
    row: Option<Row>, staged: Option<Artifact>, binary: Artifact, pc: Pc, shutdowns: nat,
    begun: nat, downloads: nat, carried: bool, answers: set<(string, Option<string>)>)

  datatype Event =
    | Operator(version: string, now: int)
    | Crash
    | Start(installs: bool)
    | ReconcileRead
    | ReconcileWrite(ok: bool, now: int)
    | TickRead
    | Decide(supported: bool, counted: bool, reread: bool)
    | NoStageDir(msg: string)
    | StartDownload(want: Option<string>)
    | Fetched(content: Placement.Bytes)
    | FetchFailed(msg: string)
    | NoteFailure(ok: bool)
    | NoteStaged(ok: bool)
    | Shutdown

  function Running(w: World, c: Config): string {
    (c.versionOf)(w.binary.content)
  }

  /** Within the size cap, and with a digest that was given for its own target. */
  ghost predicate Genuine(a: Artifact, answers: set<(string, Option<string>)>, c: Config) {
    |a.content| <= Placement.MAX_BINARY_SIZE && (a.target, Some((c.digest)(a.content))) in answers
  }

  ghost predicate Enabled(w: World, e: Event, c: Config) {
    match e
    case Operator(_, _) => w.pc != Down
    case Crash => true
    case Start(_) => w.pc == Down
    case ReconcileRead => w.pc == Booted
    case ReconcileWrite(_, _) => w.pc.Reconciling?
    case TickRead => w.pc == Idle
    case Decide(_, _, _) => w.pc.Deciding?
    case NoStageDir(_) => w.pc.Counted?
    case StartDownload(_) => w.pc.Counted?
    // Place asks for the digest first, and renames only bytes that match the answer.
    case Fetched(content) => w.pc.Fetching? && Placement.Verified(content, c.digest, w.pc.want)
    case FetchFailed(_) => w.pc.Fetching?
    case NoteFailure(_) => w.pc.Failing?
    case NoteStaged(_) => w.pc.Placed?
    case Shutdown => w.pc.Recorded?
  }

  /** The promote helper, run before every start: what is installed, and what is left staged. */
  function Promote(w: World, installs: bool): World {
    if w.staged.None? then w
    else if w.staged.value.content == [] then w.(staged := None)
    else if installs then w.(binary := w.staged.value, staged := None)
    else w
  }

  function DecideStep(w: World, seen: Row, c: Config, supported: bool, counted: bool, reread: bool): World {
    if !Wanted(seen, Running(w, c)) || !supported || !counted then w.(pc := Idle)
    else if seen.attempts >= c.max then w.(row := Fail(w.row, GaveUp(seen)), pc := Idle)
    else w.(row := Begin(w.row), begun := w.begun + 1, pc := if reread then Counted(seen.desired) else Idle)
  }

  function Step(w: World, e: Event, c: Config): World
    requires Enabled(w, e, c)
  {
    match e
    case Operator(version, now) =>
      w.(row := SetDesired(w.row, version, now), begun := 0, downloads := 0, carried := w.pc.Counted?)
    case Crash => w.(pc := Down)
    case Start(installs) => Promote(w, installs).(pc := Booted)
    case ReconcileRead => w.(pc := Reconciling(Read(w.row)))
    case ReconcileWrite(ok, now) =>
      w.(row := if ok then ReconcileRow(w.pc.seen, w.row, Running(w, c), now) else w.row, pc := Idle)
    case TickRead => w.(pc := Deciding(Read(w.row)))
    case Decide(supported, counted, reread) => DecideStep(w, w.pc.seen, c, supported, counted, reread)
    case NoStageDir(msg) => w.(pc := Failing(msg))
    case StartDownload(want) =>
      w.(pc := Fetching(w.pc.target, want), downloads := w.downloads + 1, answers := w.answers + {(w.pc.target, want)})
    case Fetched(content) => w.(pc := Placed(w.pc.target), staged := Some(Artifact(content, w.pc.target)))
    case FetchFailed(msg) => w.(pc := Failing(msg))
    case NoteFailure(ok) => w.(row := if ok then RecordError(w.row, w.pc.msg) else w.row, pc := Idle)
    case NoteStaged(ok) =>
      if ok then w.(row := Stage(w.row, w.pc.target), pc := Recorded(w.pc.target)) else w.(pc := Idle)
    case Shutdown => w.(shutdowns := w.shutdowns + 1, pc := Idle)
  }

  ghost function Next(w: World, e: Event, c: Config): Option<World> {
    if Enabled(w, e, c) then Some(Step(w, e, c)) else None
  }

  /** Where a list of events leads, each one possible when it comes. */
  ghost function Follow(w: World, es: seq<Event>, c: Config): Option<World>
    decreases |es|
  {
    if es == [] then Some(w)
    else
      var next := Next(w, es[0], c);
      if next.None? then None else Follow(next.value, es[1..], c)
  }

  ghost predicate Initial(w: World) {
    w.row.None? && w.staged.None? && w.pc == Down && w.shutdowns == 0 && w.begun == 0 && w.downloads == 0 && !w.carried
    && w.answers == {}
  }

  // ----- Bounded attempts -----

  function Carry(w: World): nat { if w.carried then 1 else 0 }

  ghost predicate Counting(w: World, c: Config) {
    && Read(w.row).attempts <= w.begun <= c.max
    && (Read(w.row).desired != "" ==> w.begun == Read(w.row).attempts)
    && (w.pc.Deciding? ==> Read(w.row) == w.pc.seen || (w.row.Some? && w.begun == 0))
    && w.downloads + (if w.pc.Counted? then 1 else 0) <= w.begun + Carry(w)
  }

  lemma StepKeepsCounting(w: World, e: Event, c: Config)
    requires c.max >= 1 && Counting(w, c) && Enabled(w, e, c)
    ensures Counting(Step(w, e, c), c)
  {
  }

  lemma {:induction false} RunKeepsCounting(w: World, es: seq<Event>, end: World, c: Config)
    requires c.max >= 1 && Counting(w, c) && Follow(w, es, c) == Some(end)
    ensures Counting(end, c)
    decreases |es|
  {
    if es != [] {
      StepKeepsCounting(w, es[0], c);
      RunKeepsCounting(Step(w, es[0], c), es[1..], end, c);
    }
  }

  /**
   Over every run of crashes, restarts, failed promotions and re-targets: the stored attempts, and the
   attempts committed since the operator last spoke, stay within the bound; so do the downloads begun since
   then, save one whose commit the operator's write overtook.
   */
  lemma AttemptsBounded(w: World, es: seq<Event>, end: World, c: Config)
    requires c.max >= 1 && Initial(w) && Follow(w, es, c) == Some(end)
    ensures Read(end.row).attempts <= c.max && end.begun <= c.max
    ensures end.downloads <= end.begun + (if end.carried then 1 else 0)
    ensures !end.carried ==> end.downloads <= c.max
  {
    RunKeepsCounting(w, es, end, c);
  }

  lemma FollowTwo(w: World, e: Event, f: Event, c: Config)
    requires Enabled(w, e, c) && Enabled(Step(w, e, c), f, c)
    ensures Follow(w, [e, f], c) == Some(Step(Step(w, e, c), f, c))
  {
    assert [e, f][1..] == [f] && [f][1..] == [];
    assert Follow(Step(w, e, c), [f], c) == Some(Step(Step(w, e, c), f, c));
  }

  ghost predicate OperatorFree(es: seq<Event>) {
    forall i :: 0 <= i < |es| ==> !es[i].Operator?
  }

  lemma {:induction false} FollowConcat(w: World, es: seq<Event>, mid: World, fs: seq<Event>, c: Config)
    requires Follow(w, es, c) == Some(mid)
    ensures Follow(w, es + fs, c) == Follow(mid, fs, c)
    decreases |es|
  {
    if es == [] {
      assert es + fs == fs;
    } else {
      assert (es + fs)[1..] == es[1..] + fs;
      FollowConcat(Next(w, es[0], c).value, es[1..], mid, fs, c);
    }
  }

  /** A download that fails for want of a digest, from its start to its recorded reason. */
  lemma FailedDownload(w: World, c: Config) returns (es: seq<Event>, end: World)
    requires w.pc.Counted?
    ensures OperatorFree(es) && Follow(w, es, c) == Some(end)
    ensures end == w.(row := RecordError(w.row, "unreachable"), pc := Idle, downloads := w.downloads + 1,
                      answers := w.answers + {(w.pc.target, None)})
  {
    var fetching := Step(w, StartDownload(None), c);
    var failing := Step(fetching, FetchFailed("unreachable"), c);
    end := Step(failing, NoteFailure(true), c);
    FollowTwo(fetching, FetchFailed("unreachable"), NoteFailure(true), c);
    es := [StartDownload(None), FetchFailed("unreachable"), NoteFailure(true)];
    assert es[1..] == [FetchFailed("unreachable"), NoteFailure(true)];
  }

  /** A tick that counts an attempt and loses its download. */
  lemma FailedTick(w: World, c: Config) returns (es: seq<Event>, end: World)
    requires w.pc == Idle && w.row.Some? && Wanted(w.row.value, Running(w, c)) && w.row.value.attempts < c.max
    ensures OperatorFree(es) && Follow(w, es, c) == Some(end)
    ensures end.pc == Idle && end.binary == w.binary && end.downloads == w.downloads + 1
    ensures end.row.Some? && end.row.value.desired == w.row.value.desired
    ensures end.row.value.attempts == w.row.value.attempts + 1
  {
    var decide := Decide(true, true, true);
    var counted := Step(Step(w, TickRead, c), decide, c);
    FollowTwo(w, TickRead, decide, c);
    var rest;
    rest, end := FailedDownload(counted, c);
    FollowConcat(w, [TickRead, decide], counted, rest, c);
    es := [TickRead, decide] + rest;
  }

  lemma {:induction false} FailedTicks(w: World, n: nat, c: Config) returns (es: seq<Event>, end: World)
    requires w.pc == Idle && w.row.Some? && Wanted(w.row.value, Running(w, c)) && w.row.value.attempts + n <= c.max
    ensures OperatorFree(es) && Follow(w, es, c) == Some(end)
    ensures end.downloads == w.downloads + n
    decreases n
  {
    if n == 0 {
      es, end := [], w;
    } else {
      var first, mid, rest;
      first, mid := FailedTick(w, c);
      rest, end := FailedTicks(mid, n - 1, c);
      FollowConcat(w, first, mid, rest, c);
      es := first + rest;
    }
  }

  /**
   The overtaken commit's download is real: a wanted target set between a commit and its transfer is followed, on some run
   without another word from the operator, by one download more than the bound.
   */
  lemma OvertakenCommit(w: World, version: string, now: int, c: Config) returns (es: seq<Event>, end: World)
    requires w.pc.Counted? && version != "" && version != Running(w, c)
    ensures OperatorFree(es) && Follow(Step(w, Operator(version, now), c), es, c) == Some(end)
    ensures end.downloads == c.max + 1
  {
    var changed := Step(w, Operator(version, now), c);
    var first, mid, rest;
    first, mid := FailedDownload(changed, c);
    rest, end := FailedTicks(mid, c.max, c);
    FollowConcat(changed, first, mid, rest, c);
    es := first + rest;
  }

  /** Whatever happens after this target is set, until the next one: at most max downloads. */
  ghost predicate DownloadsBounded(w: World, version: string, now: int, c: Config)
    requires w.pc != Down
  {
    forall es, end :: OperatorFree(es) && Follow(Step(w, Operator(version, now), c), es, c) == Some(end) ==>
      end.downloads <= c.max
  }

  lemma {:induction false} NothingCarried(w: World, es: seq<Event>, end: World, c: Config)
    requires c.max >= 1 && Counting(w, c) && !w.carried && OperatorFree(es) && Follow(w, es, c) == Some(end)
    ensures end.downloads <= c.max
    decreases |es|
  {
    if es != [] {
      StepKeepsCounting(w, es[0], c);
      NothingCarried(Step(w, es[0], c), es[1..], end, c);
    }
  }

  /** Exactly when max downloads are the most a wanted target can cost: it does not land on a waiting commit. */
  lemma DownloadsBoundedExactly(w: World, version: string, now: int, c: Config)
    requires c.max >= 1 && Counting(w, c) && w.pc != Down && version != "" && version != Running(w, c)
    ensures DownloadsBounded(w, version, now, c) <==> !w.pc.Counted?
  {
    if w.pc.Counted? {
      var es, end := OvertakenCommit(w, version, now, c);
    } else {
      var changed := Step(w, Operator(version, now), c);
      StepKeepsCounting(w, Operator(version, now), c);
      forall es, end | OperatorFree(es) && Follow(changed, es, c) == Some(end) ensures end.downloads <= c.max {
        NothingCarried(changed, es, end, c);
      }
    }
  }

  /** The machine's download that fails leaves the row its own reason and nothing else. */
  lemma FailureIsNoted(w: World, msg: string, c: Config) returns (es: seq<Event>, end: World)
    requires w.pc.Fetching? && w.row.Some? && msg != ""
    ensures OperatorFree(es) && Follow(w, es, c) == Some(end) && end.pc == Idle
    ensures var r := w.row.value;
            end.row == Some(Row(r.desired, r.staged, r.attempts, msg, r.requestedAt, r.appliedAt))
    ensures StateOf(end.row.value, Running(end, c), true) == FailedState
  {
    es := [FetchFailed(msg), NoteFailure(true)];
    end := Step(Step(w, FetchFailed(msg), c), NoteFailure(true), c);
    FollowTwo(w, FetchFailed(msg), NoteFailure(true), c);
  }

  // ----- Quiescence -----

  /** Did this event write the row on behalf of a tick? Recording an outcome belongs to the tick that counted. */
  predicate WritesForTick(w: World, e: Event, c: Config) {
    e.Decide? && w.pc.Deciding? && Wanted(w.pc.seen, Running(w, c)) && e.supported && e.counted
  }

  ghost function TickWrites(w: World, es: seq<Event>, c: Config): nat
    decreases |es|
  {
    if es == [] || !Enabled(w, es[0], c) then 0
    else (if WritesForTick(w, es[0], c) then 1 else 0) + TickWrites(Step(w, es[0], c), es[1..], c)
  }

  /** A tick already past its read when the operator wrote acts on what it saw. */
  predicate Stale(w: World) {
    w.pc.Deciding? && Read(w.row) != w.pc.seen
  }

  function Budget(w: World, c: Config): int {
    (if Read(w.row).desired == "" then 0 else c.max + 1 - Read(w.row).attempts) + (if Stale(w) then 1 else 0)
  }

  lemma StepSpendsBudget(w: World, e: Event, c: Config)
    requires c.max >= 1 && Counting(w, c) && Enabled(w, e, c) && !e.Operator?
    ensures Budget(Step(w, e, c), c) + (if WritesForTick(w, e, c) then 1 else 0) <= Budget(w, c)
    ensures Budget(w, c) >= 0
  {
  }

  /** With no operator action, at most max + 1 ticks ever change the row, across any number of restarts. */
  lemma {:induction false} Quiesces(w: World, es: seq<Event>, c: Config)
    requires c.max >= 1 && Counting(w, c) && Follow(w, es, c).Some?
    requires OperatorFree(es)
    ensures TickWrites(w, es, c) <= Budget(w, c)
    ensures !Stale(w) ==> TickWrites(w, es, c) <= c.max + 1
    decreases |es|
  {
    if es != [] {
      StepSpendsBudget(w, es[0], c);
      StepKeepsCounting(w, es[0], c);
      Quiesces(Step(w, es[0], c), es[1..], c);
    }
  }

  /** Nothing is wanted, and whoever has read the row knows. */
  predicate AtRest(w: World) {
    && Read(w.row).desired == ""
    && match w.pc
       case Reconciling(seen) => seen == Read(w.row)
       case Deciding(seen) => seen == Read(w.row)
       case _ => w.pc.Down? || w.pc.Booted? || w.pc.Idle?
  }

  /**
   Once given up, nothing but the operator changes the row, across crashes, restarts, promotions and boots: a
   failure reads "failed" until then, whatever version runs.
   */
  lemma {:induction false} FailureStands(w: World, es: seq<Event>, end: World, c: Config)
    requires AtRest(w) && OperatorFree(es) && Follow(w, es, c) == Some(end)
    ensures end.row == w.row && AtRest(end)
    ensures Read(w.row).error != "" ==> StateOf(Read(end.row), Running(end, c), true) == FailedState
    decreases |es|
  {
    if es != [] {
      FailureStands(Step(w, es[0], c), es[1..], end, c);
    }
  }

  /**
   A target is given up, with a reason, once as many ticks as its budget have written the row: however many
   crashes, restarts, failed promotions, boots and lost writes came in between.
   */
  lemma {:induction false} GivesUpInTime(w: World, es: seq<Event>, end: World, c: Config)
    requires c.max >= 1 && Counting(w, c) && !Stale(w) && Read(w.row).desired != ""
    requires OperatorFree(es) && Follow(w, es, c) == Some(end)
    requires TickWrites(w, es, c) >= c.max + 1 - Read(w.row).attempts
    ensures Read(end.row).desired == "" && Read(end.row).staged == "" && Read(end.row).error != ""
    ensures StateOf(Read(end.row), Running(end, c), true) == FailedState
    decreases |es|
  {
    assert es != [];
    var next := Step(w, es[0], c);
    StepSpendsBudget(w, es[0], c);
    StepKeepsCounting(w, es[0], c);
    Quiesces(next, es[1..], c);
    if Read(next.row).desired == "" {
      FailureStands(next, es[1..], end, c);
    } else {
      GivesUpInTime(next, es[1..], end, c);
    }
  }

  // ----- What is staged and what runs -----

  /** The target the process has a staged file for. */
  function StagedTarget(pc: Pc): Option<string> {
    match pc
    case Placed(target) => Some(target)
    case Recorded(target) => Some(target)
    case _ => None
  }

  ghost predicate Trusted(w: World, original: Artifact, c: Config) {
    && (w.staged.Some? ==> Genuine(w.staged.value, w.answers, c))
    && (w.binary == original || Genuine(w.binary, w.answers, c))
    && (w.pc.Fetching? ==> (w.pc.target, w.pc.want) in w.answers)
    && (StagedTarget(w.pc).Some? ==> w.staged.Some? && w.staged.value.target == StagedTarget(w.pc).value)
  }

  lemma StepKeepsTrust(w: World, e: Event, original: Artifact, c: Config)
    requires Trusted(w, original, c) && Enabled(w, e, c)
    ensures Trusted(Step(w, e, c), original, c)
  {
  }

  /**
   Crashes included, what is staged and what runs is the binary of the beginning or complete and of a digest that
   the release host gave, before the bytes came, for the target it was downloaded for.
   */
  lemma {:induction false} StagedIsVerified(w: World, es: seq<Event>, end: World, original: Artifact, c: Config)
    requires Trusted(w, original, c) && Follow(w, es, c) == Some(end)
    ensures Trusted(end, original, c)
    decreases |es|
  {
    if es != [] {
      StepKeepsTrust(w, es[0], original, c);
      StagedIsVerified(Step(w, es[0], c), es[1..], end, original, c);
    }
  }

  /** The answers of a run are those its downloads were given, each for the target counted just before. */
  lemma {:induction false} AnswersWereGiven(w: World, es: seq<Event>, end: World, a: (string, Option<string>), c: Config)
    returns (i: nat)
    requires Follow(w, es, c) == Some(end) && a in end.answers && a !in w.answers
    ensures i < |es| && es[i] == StartDownload(a.1)
    ensures Follow(w, es[..i], c).Some? && Follow(w, es[..i], c).value.pc == Counted(a.0)
    decreases |es|
  {
    var next := Step(w, es[0], c);
    if a in next.answers {
      i := 0;
    } else {
      var rest := AnswersWereGiven(next, es[1..], end, a, c);
      i := rest + 1;
      assert es[..i][1..] == es[1..][..rest];
    }
  }

  /** The staged path of a file system is what the machine says is staged. */
  ghost predicate Shows(files: Placement.Files, path: string, w: World) {
    && (path in files <==> w.staged.Some?)
    && (path in files ==> files[path] == w.staged.value.content)
  }

  /** Some run on which the release host gave no more than these answers ends in a crash with these files on disk. */
  ghost predicate CrashReachable(w: World, files: Placement.Files, path: string, answers: set<(string, Option<string>)>,
                                 c: Config)
  {
    exists es, end :: Follow(w, es, c) == Some(end) && end.pc.Down? && Shows(files, path, end) && end.answers == answers
  }

  /** A crash between any two system calls of a placement is a run of the machine, with the digest it was given. */
  lemma CrashInsidePlace(w: World, es: seq<Event>, mid: World, before: Placement.Files, after: Placement.Files,
                         path: string, c: Config)
    requires Follow(w, es, c) == Some(mid) && mid.pc.Fetching? && Shows(before, path, mid)
    requires Placement.DestFine(before, after, path, c.digest, mid.pc.want)
    ensures CrashReachable(w, after, path, mid.answers, c)
  {
    if (path in after <==> path in before) && (path in before ==> after[path] == before[path]) {
      var end := Step(mid, Crash, c);
      assert [Crash][1..] == [];
      FollowConcat(w, es, mid, [Crash], c);
      assert Follow(w, es + [Crash], c) == Some(end) && Shows(after, path, end);
    } else {
      var fetched := Fetched(after[path]);
      var end := Step(Step(mid, fetched, c), Crash, c);
      FollowTwo(mid, fetched, Crash, c);
      FollowConcat(w, es, mid, [fetched, Crash], c);
      assert Follow(w, es + [fetched, Crash], c) == Some(end) && Shows(after, path, end);
    }
  }

  /** So whatever a crash leaves under the staged path has a digest that was given for some target. */
  lemma CrashLeavesVerified(w: World, files: Placement.Files, path: string, answers: set<(string, Option<string>)>,
                            original: Artifact, c: Config) returns (a: Artifact)
    requires Trusted(w, original, c) && CrashReachable(w, files, path, answers, c) && path in files
    ensures a.content == files[path] && Genuine(a, answers, c)
  {
    var es, end :| Follow(w, es, c) == Some(end) && end.pc.Down? && Shows(files, path, end) && end.answers == answers;
    StagedIsVerified(w, es, end, original, c);
    a := end.staged.value;
  }

  /** The row exists while an attempt is under way, and has the staged version until the operator speaks. */
  predicate Recording(w: World) {
    match w.pc
    case Deciding(seen) => seen.desired != "" ==> w.row.Some?
    case Counted(_) => w.row.Some?
    case Fetching(_, _) => w.row.Some?
    case Placed(_) => w.row.Some?
    case Recorded(target) => w.row.Some? && (w.begun > 0 ==> w.row.value.staged == target)
    case _ => true
  }

  lemma {:induction false} RunKeepsRecording(w: World, es: seq<Event>, end: World, c: Config)
    requires Recording(w) && Follow(w, es, c) == Some(end)
    ensures Recording(end)
    decreases |es|
  {
    if es != [] {
      RunKeepsRecording(Step(w, es[0], c), es[1..], end, c);
    }
  }

  /**
   Shutdown is asked for only by a tick whose target's verified file is in place; the row says so, unless the
   operator has written it since the attempt was counted.
   */
  lemma ShutdownOnlyWhenStaged(w: World, es: seq<Event>, end: World, original: Artifact, c: Config)
    requires Initial(w) && w.binary == original && Follow(w, es, c) == Some(end)
    requires Enabled(end, Shutdown, c)
    ensures end.staged.Some? && end.staged.value.target == end.pc.target && Genuine(end.staged.value, end.answers, c)
    ensures end.begun > 0 ==> Read(end.row).staged == end.pc.target
  {
    StagedIsVerified(w, es, end, original, c);
    RunKeepsRecording(w, es, end, c);
  }

  // ----- Races with the operator -----

  /** A target set between a tick's read and its decision survives that tick exactly when the tick does not give up. */
  lemma RetargetSurvivesTick(w: World, version: string, now: int, c: Config)
    requires w.pc.Deciding? && version != ""
    ensures var changed := Step(w, Operator(version, now), c);
            Read(Step(changed, Decide(true, true, true), c).row).desired == version
            <==> !GivesUp(w.pc.seen, Running(w, c), c.max)
  {
  }

  /** A target set between Reconcile's read and its write survives exactly when the update had not landed. */
  lemma RetargetSurvivesReconcile(w: World, version: string, at: int, now: int, c: Config)
    requires w.pc.Reconciling? && version != ""
    ensures var changed := Step(w, Operator(version, at), c);
            Read(Step(changed, ReconcileWrite(true, now), c).row).desired == version
            <==> (w.pc.seen.desired == "" || w.pc.seen.desired != Running(w, c))
  {
  }

  /** What the helper makes of the staged file before a start: an empty one goes, one that cannot be installed stays. */
  lemma StartOutcomes(w: World, installs: bool, c: Config)
    requires w.pc == Down
    ensures var v := Step(w, Start(installs), c);
            && v.row == w.row && v.pc == Booted
            && if w.staged.None? then v.staged == None && v.binary == w.binary
               else if |w.staged.value.content| == 0 then v.staged == None && v.binary == w.binary
               else if installs then v.staged == None && v.binary == w.staged.value
               else v.staged == w.staged && v.binary == w.binary
  {
  }

  /** A cancelled update stays out of the next start exactly when there is nothing new staged that installs. */
  lemma CancelDoesNotUnstage(w: World, now: int, installs: bool, c: Config) returns (end: World)
    requires w.pc != Down
    ensures Follow(w, [Operator("", now), Crash, Start(installs)], c) == Some(end) && Read(end.row).desired == ""
    ensures end.binary == w.binary <==>
              w.staged.None? || w.staged.value.content == [] || !installs || w.staged.value == w.binary
    ensures end.binary == w.binary || Some(end.binary) == w.staged
  {
    var changed := Step(w, Operator("", now), c);
    end := Step(Step(changed, Crash, c), Start(installs), c);
    FollowTwo(changed, Crash, Start(installs), c);
    assert [Operator("", now), Crash, Start(installs)][1..] == [Crash, Start(installs)];
  }

  /** What the next start can install: nothing, or a file downloaded for this version. */
  predicate StagedOnlyFor(w: World, version: string) {
    w.staged.None? || w.staged.value.content == [] || w.staged.value.target == version
  }

  /** Neither staged nor on its way: a file for anything but this version. */
  ghost predicate NothingElseUnderWay(w: World, version: string, c: Config) {
    && StagedOnlyFor(w, version)
    && match w.pc
       case Deciding(seen) => !Wanted(seen, Running(w, c)) || seen.attempts >= c.max || seen.desired == version
       case Counted(target) => target == version
       case Fetching(target, want) =>
         target == version || forall content :: Placement.Verified(content, c.digest, want) ==> content == []
       case _ => true
  }

  lemma {:induction false} NothingElseStaged(w: World, es: seq<Event>, end: World, version: string, c: Config)
    requires NothingElseUnderWay(w, version, c) && (Read(w.row).desired == version || Read(w.row).desired == "")
    requires OperatorFree(es) && Follow(w, es, c) == Some(end)
    ensures StagedOnlyFor(end, version) && (end.binary == w.binary || end.binary.target == version)
    decreases |es|
  {
    if es != [] {
      NothingElseStaged(Step(w, es[0], c), es[1..], end, version, c);
    }
  }

  /** Something else staged or under way gets staged on some run. */
  lemma SomethingElseStaged(w: World, version: string, c: Config) returns (es: seq<Event>, end: World)
    requires !NothingElseUnderWay(w, version, c)
    ensures OperatorFree(es) && Follow(w, es, c) == Some(end) && !StagedOnlyFor(end, version)
  {
    if !StagedOnlyFor(w, version) {
      return [], w;
    }
    match w.pc {
      case Deciding(seen) =>
        var decide := Decide(true, true, true);
        var counted := Step(w, decide, c);
        var rest;
        rest, end := SomethingElseFetched(counted, version, c);
        es := [decide] + rest;
        assert es[1..] == rest;
      case Counted(_) =>
        es, end := SomethingElseFetched(w, version, c);
      case Fetching(_, want) =>
        var content :| Placement.Verified(content, c.digest, want) && content != [];
        es, end := [Fetched(content)], Step(w, Fetched(content), c);
        assert es[1..] == [];
    }
  }

  lemma SomethingElseFetched(w: World, version: string, c: Config) returns (es: seq<Event>, end: World)
    requires w.pc.Counted? && w.pc.target != version
    ensures OperatorFree(es) && Follow(w, es, c) == Some(end) && !StagedOnlyFor(end, version)
  {
    var content: Placement.Bytes := [0];
    var start := StartDownload(Some((c.digest)(content)));
    es, end := [start, Fetched(content)], Step(Step(w, start, c), Fetched(content), c);
    FollowTwo(w, start, Fetched(content), c);
  }

  /** Whatever happens after this target is set, until the next one: only its file is left staged or gets installed. */
  ghost predicate OnlyTargetInstalls(w: World, version: string, now: int, c: Config)
    requires w.pc != Down
  {
    forall es, end ::
      OperatorFree(es) && Follow(Step(w, Operator(version, now), c), es, c) == Some(end) ==>
      StagedOnlyFor(end, version) && (end.binary == w.binary || end.binary.target == version)
  }

  /** Exactly when a target, or a cancellation, keeps every other version from being installed. */
  lemma OnlyTargetInstallsExactly(w: World, version: string, now: int, c: Config)
    requires w.pc != Down
    ensures OnlyTargetInstalls(w, version, now, c) <==> NothingElseUnderWay(w, version, c)
  {
    var changed := Step(w, Operator(version, now), c);
    if NothingElseUnderWay(w, version, c) {
      forall es, end | OperatorFree(es) && Follow(changed, es, c) == Some(end)
        ensures StagedOnlyFor(end, version) && (end.binary == w.binary || end.binary.target == version)
      {
        NothingElseStaged(changed, es, end, version, c);
      }
    } else {
      var es, end := SomethingElseStaged(changed, version, c);
    }
  }
}
