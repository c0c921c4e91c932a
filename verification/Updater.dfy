/** mother/selfupdate/updater.go step by step, and that its steps are runs of the crash-restart machine. */
module Updater {
  import opened Wrappers
  import opened MotherUpdate
  import opened Placement

  /** The single-row table. Each statement either lands or reports failure and changes nothing. */
  class MotherStore {
    var row: Option<Row>

    constructor ()
      ensures row == None
    {
      row := None;
    }

    method SetMotherDesiredVersion(version: string, now: int, ok: bool)
      modifies this
      ensures row == if ok then SetDesired(old(row), version, now) else old(row)
    {
      if ok {
        row := Some(Row(version, "", 0, "", now, if row.Some? then row.value.appliedAt else 0));
      }
    }

    /** The increment commits even when reading the total back fails. */
    method BeginMotherAttempt(counted: bool, reread: bool) returns (total: Option<nat>)
      modifies this
      ensures row == if counted then Begin(old(row)) else old(row)
      ensures total == if counted && reread then Some(Read(row).attempts) else None
    {
      if !counted {
        return None;
      }
      if row.Some? {
        row := Some(row.value.(attempts := row.value.attempts + 1, error := ""));
      }
      return if reread then Some(Read(row).attempts) else None;
    }

    method StageMotherUpdate(version: string, ok: bool)
      modifies this
      ensures row == if ok then Stage(old(row), version) else old(row)
    {
      if ok && row.Some? {
        row := Some(row.value.(staged := version));
      }
    }

    method RecordMotherUpdateError(msg: string, ok: bool)
      modifies this
      ensures row == if ok then RecordError(old(row), msg) else old(row)
      ensures ok && old(row).Some? ==> row == Some(old(row).value.(error := msg))
    {
      if ok && row.Some? {
        row := Some(row.value.(error := msg));
      }
    }

    method FailMotherUpdate(msg: string, ok: bool)
      modifies this
      ensures row == if ok then Fail(old(row), msg) else old(row)
    {
      if ok && row.Some? {
        row := Some(row.value.(desired := "", staged := "", error := msg));
      }
    }

    method ClearMotherUpdate(appliedAt: int, ok: bool)
      modifies this
      ensures row == if ok then Clear(old(row), appliedAt) else old(row)
    {
      if ok {
        row := Some(Row("", "", 0, "", if row.Some? then row.value.requestedAt else 0, appliedAt));
      }
    }
  }

  /** What the surroundings answer during one Tick. */
  datatype Env = Env(
    supported: bool, counted: bool, reread: bool, stageDirError: Option<string>,
    sum: Reply<char>, binary: Reply<Byte>, tmp: string, faults: Faults, placeError: string, noted: bool)

  /** The reason is the directory's if it cannot be made, else the placement's. */
  function TransferOf(env: Env, c: Config): (t: Transfer)
    ensures t.Complete? <==> env.stageDirError.None? && Places(env.sum, env.binary, env.faults, c.digest)
    ensures t.Broken? ==> t.msg == if env.stageDirError.Some? then env.stageDirError.value else env.placeError
  {
    if env.stageDirError.Some? then Broken(env.stageDirError.value)
    else if Places(env.sum, env.binary, env.faults, c.digest) then Complete
    else Broken(env.placeError)
  }

  /** Does this Tick get as far as a transfer? */
  predicate Attempts(row: Option<Row>, running: string, c: Config, env: Env) {
    Wanted(Read(row), running) && env.supported && Read(row).attempts < c.max && env.counted && env.reread
  }

  /** An event of a tick whose release host answers as `env` says. */
  predicate OfTick(e: Event, env: Env) {
    match e
    case TickRead => true
    case Decide(_, _, _) => true
    case NoStageDir(_) => true
    case StartDownload(want) => want == Published(env.sum)
    case Fetched(content) => env.binary.Reply? && content == env.binary.body
    case FetchFailed(_) => true
    case NoteFailure(_) => true
    case NoteStaged(_) => true
    case Shutdown => true
    case _ => false
  }

  /** The answers known once this tick's download has asked for a digest. */
  function Asked(w: World, target: string, env: Env): set<(string, Option<string>)> {
    w.answers + {(target, Published(env.sum))}
  }

  /** Each of these file states leaves the staged path as before or verified against what was published. */
  ghost predicate AllFine(before: Files, states: seq<Files>, path: string, env: Env, c: Config) {
    forall k :: 0 <= k < |states| ==> DestFine(before, states[k], path, c.digest, Published(env.sum))
  }

  /** Each of them is one a run of the machine can crash in, on no other answers. */
  ghost predicate AllReachable(w: World, states: seq<Files>, path: string, answers: set<(string, Option<string>)>, c: Config) {
    forall k :: 0 <= k < |states| ==> CrashReachable(w, states[k], path, answers, c)
  }

  lemma {:induction false} FollowOne(w: World, es: seq<Event>, end: World, e: Event, c: Config)
    requires Follow(w, es, c) == Some(end) && Next(end, e, c).Some?
    ensures Follow(w, es + [e], c) == Next(end, e, c)
    decreases |es|
  {
    if es == [] {
      assert (es + [e])[1..] == [];
    } else {
      assert (es + [e])[1..] == es[1..] + [e];
      FollowOne(Next(w, es[0], c).value, es[1..], end, e, c);
    }
  }

  class Updater {
    const c: Config
    const stagedPath: string
    const store: MotherStore
    const fs: FileSystem
    var shutdowns: nat
    /** The machine's view of this process, advanced step by step along with it. */
    ghost var world: World

    ghost predicate Valid()
      reads this, store, fs
    {
      Mirrors() && world.pc == Idle
    }

    /** The machine's world agrees with the real row, file and shutdown requests. */
    ghost predicate Mirrors()
      reads this, store, fs
    {
      && world.row == store.row && world.shutdowns == shutdowns && Shows(fs.files, stagedPath, world)
    }

    constructor (c: Config, stagedPath: string, store: MotherStore, fs: FileSystem, ghost world: World)
      requires world.row == store.row && world.pc == Idle && world.shutdowns == 0
      requires Shows(fs.files, stagedPath, world)
      ensures Valid() && this.c == c && this.stagedPath == stagedPath && this.store == store && this.fs == fs
      ensures this.world == world && shutdowns == 0
    {
      this.c, this.stagedPath, this.store, this.fs := c, stagedPath, store, fs;
      this.shutdowns, this.world := 0, world;
    }

    ghost method Advance(start: World, es: seq<Event>, e: Event) returns (longer: seq<Event>)
      requires Follow(start, es, c) == Some(world) && Next(world, e, c).Some?
      modifies this`world
      ensures longer == es + [e] && Follow(start, longer, c) == Some(world)
      ensures Some(world) == Next(old(world), e, c)
    {
      FollowOne(start, es, world, e, c);
      world, longer := Next(world, e, c).value, es + [e];
    }

    method Tick(running: string, env: Env) returns (ok: bool, ghost es: seq<Event>)
      requires Valid() && running == Running(world, c)
      requires env.tmp !in fs.files && env.tmp != stagedPath
      modifies this, store, fs
      ensures Valid()
      ensures Follow(old(world), es, c) == Some(world)
      ensures forall i :: 0 <= i < |es| ==> OfTick(es[i], env)
      ensures store.row == TickRow(old(store.row), running, c.max, env.supported, env.counted, env.reread,
                                   TransferOf(env, c), env.noted)
      ensures var fetches := Attempts(old(store.row), running, c, env) && TransferOf(env, c).Complete?;
              && (if fetches then fs.files == old(fs.files)[stagedPath := env.binary.body]
                             else fs.files - {env.tmp} == old(fs.files))
              && shutdowns == old(shutdowns) + (if fetches && env.noted then 1 else 0)
      ensures ok <==>
                || !Wanted(Read(old(store.row)), running) || !env.supported
                || (env.counted && (Read(old(store.row)).attempts >= c.max
                                    || (env.reread && TransferOf(env, c).Complete? && env.noted)))
      // Every file state in between: verified against the answer given before the bytes, and one to crash in.
      ensures old(fs.states) <= fs.states
      ensures AllFine(old(fs.files), fs.states[|old(fs.states)|..], stagedPath, env, c)
      ensures AllReachable(old(world), fs.states[|old(fs.states)|..], stagedPath,
                           Asked(old(world), Read(old(store.row)).desired, env), c)
    {
      ghost var start := world;
      assert fs.files - {env.tmp} == fs.files;
      var row := Read(store.row);
      es := Advance(start, [], TickRead);
      ghost var decide := Decide(env.supported, env.counted, env.reread);
      if row.desired == "" || row.desired == running {
        es := Advance(start, es, decide);
        return true, es;
      }
      if !env.supported {
        es := Advance(start, es, decide);
        return true, es;
      }
      if row.attempts >= c.max {
        store.FailMotherUpdate(GaveUp(row), env.counted);
        es := Advance(start, es, decide);
        return env.counted, es;
      }
      var total := store.BeginMotherAttempt(env.counted, env.reread);
      es := Advance(start, es, decide);
      if total.None? {
        return false, es;
      }
      ok, es := Attempt(row.desired, env, start, es);
    }

    /** The rest of Tick, once the attempt has been counted. */
    method Attempt(desired: string, env: Env, ghost start: World, ghost before: seq<Event>)
      returns (ok: bool, ghost es: seq<Event>)
      requires Mirrors() && world.pc == Counted(desired)
      requires Follow(start, before, c) == Some(world)
      requires env.tmp !in fs.files && env.tmp != stagedPath
      modifies this, store, fs
      ensures Valid()
      ensures Follow(start, es, c) == Some(world)
      ensures before <= es && forall i :: |before| <= i < |es| ==> OfTick(es[i], env)
      ensures ok <==> TransferOf(env, c).Complete? && env.noted
      ensures store.row == AttemptRow(old(store.row), desired, TransferOf(env, c), env.noted)
      ensures TransferOf(env, c).Complete? ==> fs.files == old(fs.files)[stagedPath := env.binary.body]
      ensures !TransferOf(env, c).Complete? ==> fs.files - {env.tmp} == old(fs.files)
      ensures shutdowns == old(shutdowns) + (if TransferOf(env, c).Complete? && env.noted then 1 else 0)
      ensures old(fs.states) <= fs.states && AllFine(old(fs.files), fs.states[|old(fs.states)|..], stagedPath, env, c)
      ensures AllReachable(start, fs.states[|old(fs.states)|..], stagedPath, Asked(old(world), desired, env), c)
    {
      var failure: Option<string>;
      failure, es := FetchStaged(desired, env, start, before);
      if failure.Some? {
        es := Record(failure.value, env.noted, start, es);
        return false, es;
      }
      es := Finish(desired, env.noted, start, es);
      return env.noted, es;
    }

    /** Make the stage directory, fetch, verify and place; or say why not. */
    method FetchStaged(desired: string, env: Env, ghost start: World, ghost before: seq<Event>)
      returns (failure: Option<string>, ghost es: seq<Event>)
      requires Mirrors() && world.pc == Counted(desired)
      requires Follow(start, before, c) == Some(world)
      requires env.tmp !in fs.files && env.tmp != stagedPath
      modifies this`world, fs
      ensures Mirrors() && Follow(start, es, c) == Some(world)
      ensures world.pc == if failure.Some? then Failing(failure.value) else Placed(desired)
      ensures before <= es && forall i :: |before| <= i < |es| ==> OfTick(es[i], env)
      ensures TransferOf(env, c) == if failure.Some? then Broken(failure.value) else Complete
      ensures failure.None? ==> fs.files == old(fs.files)[stagedPath := env.binary.body]
      ensures failure.Some? ==> fs.files - {env.tmp} == old(fs.files)
      ensures old(fs.states) <= fs.states && AllFine(old(fs.files), fs.states[|old(fs.states)|..], stagedPath, env, c)
      ensures AllReachable(start, fs.states[|old(fs.states)|..], stagedPath, Asked(old(world), desired, env), c)
    {
      if env.stageDirError.Some? {
        assert fs.files - {env.tmp} == fs.files;
        es := Advance(start, before, NoStageDir(env.stageDirError.value));
        return env.stageDirError, es;
      }
      es := Advance(start, before, StartDownload(Published(env.sum)));
      var placed;
      placed, es := Transferred(desired, env, start, es);
      return if placed then None else Some(env.placeError), es;
    }

    /** The download itself. */
    method Transferred(desired: string, env: Env, ghost start: World, ghost before: seq<Event>)
      returns (placed: bool, ghost es: seq<Event>)
      requires Mirrors() && world.pc == Fetching(desired, Published(env.sum))
      requires Follow(start, before, c) == Some(world)
      requires env.tmp !in fs.files && env.tmp != stagedPath
      modifies this`world, fs
      ensures Mirrors() && Follow(start, es, c) == Some(world)
      ensures world.pc == if placed then Placed(desired) else Failing(env.placeError)
      ensures before <= es && |es| == |before| + 1 && OfTick(es[|before|], env)
      ensures placed <==> Places(env.sum, env.binary, env.faults, c.digest)
      ensures placed ==> fs.files == old(fs.files)[stagedPath := env.binary.body]
      ensures !placed ==> fs.files - {env.tmp} == old(fs.files)
      ensures old(fs.states) <= fs.states && AllFine(old(fs.files), fs.states[|old(fs.states)|..], stagedPath, env, c)
      ensures AllReachable(start, fs.states[|old(fs.states)|..], stagedPath, old(world).answers, c)
    {
      ghost var mid := world;
      placed := PlaceStaged(env);
      ghost var passed := fs.states[|old(fs.states)|..];
      forall k | 0 <= k < |passed| ensures CrashReachable(start, passed[k], stagedPath, mid.answers, c) {
        CrashInsidePlace(start, before, mid, old(fs.files), passed[k], stagedPath, c);
      }
      es := Advance(start, before, if placed then Fetched(env.binary.body) else FetchFailed(env.placeError));
    }

    /** Record the staged version, then ask for the shutdown. */
    method Finish(desired: string, noted: bool, ghost start: World, ghost before: seq<Event>) returns (ghost es: seq<Event>)
      requires Mirrors() && world.pc == Placed(desired)
      requires Follow(start, before, c) == Some(world)
      modifies this, store
      ensures Valid() && Follow(start, es, c) == Some(world)
      ensures es == before + (if noted then [NoteStaged(true), Shutdown] else [NoteStaged(false)])
      ensures store.row == if noted then Stage(old(store.row), desired) else old(store.row)
      ensures shutdowns == old(shutdowns) + (if noted then 1 else 0)
    {
      store.StageMotherUpdate(desired, noted);
      es := Advance(start, before, NoteStaged(noted));
      if noted {
        shutdowns := shutdowns + 1;
        es := Advance(start, es, Shutdown);
      }
    }

    method PlaceStaged(env: Env) returns (placed: bool)
      requires env.tmp !in fs.files && env.tmp != stagedPath
      modifies fs
      ensures placed <==> Places(env.sum, env.binary, env.faults, c.digest)
      ensures placed ==> fs.files == old(fs.files)[stagedPath := env.binary.body] &&
                         Verified(env.binary.body, c.digest, Published(env.sum))
      ensures !placed ==> fs.files - {env.tmp} == old(fs.files)
      ensures !placed ==> (stagedPath in fs.files <==> stagedPath in old(fs.files)) &&
                          (stagedPath in fs.files ==> fs.files[stagedPath] == old(fs.files)[stagedPath])
      ensures old(fs.states) <= fs.states && AllFine(old(fs.files), fs.states[|old(fs.states)|..], stagedPath, env, c)
    {
      placed := Place(fs, env.sum, env.binary, env.tmp, stagedPath, env.faults, c.digest);
      assert stagedPath in fs.files <==> stagedPath in fs.files - {env.tmp};
      forall k | |old(fs.states)| <= k < |fs.states|
        ensures DestFine(old(fs.files), fs.states[k], stagedPath, c.digest, Published(env.sum))
      {
        SafeKeepsDest(old(fs.files), fs.states[k], env.tmp, stagedPath, c.digest, Published(env.sum));
      }
    }

    /** record: keep the reason. */
    method Record(msg: string, noted: bool, ghost start: World, ghost before: seq<Event>)
      returns (ghost es: seq<Event>)
      requires Mirrors() && world.pc == Failing(msg)
      requires Follow(start, before, c) == Some(world)
      modifies this`world, store
      ensures Valid() && Follow(start, es, c) == Some(world)
      ensures es == before + [NoteFailure(noted)]
      ensures store.row == if noted then RecordError(old(store.row), msg) else old(store.row)
    {
      store.RecordMotherUpdateError(msg, noted);
      es := Advance(start, before, NoteFailure(noted));
    }

    /** Reconcile, run once at boot. */
    method Reconcile(running: string, now: int, ok: bool)
      requires world.pc == Booted && world.row == store.row && running == Running(world, c)
      modifies this`world, store
      ensures world.pc == Idle && world.row == store.row
      ensures Follow(old(world), [ReconcileRead, ReconcileWrite(ok, now)], c) == Some(world)
      ensures store.row == if ok then ReconcileRow(Read(old(store.row)), old(store.row), running, now) else old(store.row)
    {
      ghost var start := world;
      var row := Read(store.row);
      ghost var es := Advance(start, [], ReconcileRead);
      if row.desired == running && row.desired != "" {
        store.ClearMotherUpdate(now, ok);
      } else if row.desired != "" && row.staged != "" {
        store.RecordMotherUpdateError(NotPromoted(row, running), ok);
      }
      es := Advance(start, es, ReconcileWrite(ok, now));
    }
  }
}
