/** One media item of a playlist: its configured file name, the single slot
    that owns the running playback backend, the shared media status record
    the backend reports into, and the state of the slot's mutex.

    Every operation is a pure transition. Settings, the node's mode, the
    backend's start result and the base playlist entry's return values are
    parameters. An operation that locks the slot mutex while it is still
    held (left held by an earlier early return) never returns: `Blocked`. */
module PlaylistEntryMedia {
  import opened Wrappers
  import opened MediaPath
  import opened BackendSelection
  import opened MediaLog

  /** MEDIAOUTPUTSTATUS_IDLE. */
  const StatusIdle: int := 0

  /** The node's role as getFPPmode reports it. */
  datatype FppMode = PlayerMode | MasterMode | RemoteMode | BridgeMode

  /** Everything an operation reads from outside the entry. */
  datatype Env = Env(mode: FppMode, settings: Settings, isPi: bool, mqttPresent: bool)

  /** The shared media output status record. `mediaSeconds` is a float in
      the program; it is only ever copied. */
  datatype MediaStatus = MediaStatus(
    status: int,
    secondsElapsed: int,
    subSecondsElapsed: int,
    secondsRemaining: int,
    subSecondsRemaining: int,
    minutesTotal: int,
    secondsTotal: int,
    mediaSeconds: real,
    speedDelta: int)

  /** A live backend: its kind, its child process id (0: none) and the path
      it was created with. */
  datatype Handle = Handle(kind: BackendKind, childPID: int, mediaFilename: string)

  datatype Entry = Entry(
    filename: string,
    output: Option<Handle>,
    shared: MediaStatus,
    lockHeld: bool,
    log: seq<Event>)

  /** What a call does: it returns a new entry and a result code, or it
      waits forever on the slot mutex. */
  datatype Outcome = Returned(entry: Entry, code: int) | Blocked

  /** What the chosen backend's Start() reports: success, the child it
      spawned, and the shared status as it left it. */
  datatype StartReport = StartReport(ok: bool, childPID: int, status: MediaStatus)

  /** A JSON scalar, enough for the status record GetConfig produces. */
  datatype JsonValue = JString(str: string) | JInt(num: int) | JReal(val: real)

  /** A status publish happens only when the MQTT client object exists. */
  function Publish(env: Env, payload: string): seq<Event> {
    if env.mqttPresent then [Published(payload)] else []
  }

  /** Sync packets are sent only by the master. */
  function SyncIfMaster(env: Env, ev: Event): seq<Event> {
    if env.mode == MasterMode then [ev] else []
  }

  /** A freshly constructed entry: no file name yet, an empty slot, the
      mutex free and nothing done. */
  function New(shared: MediaStatus): (r: Entry)
    ensures r.output.None? && !r.lockHeld && r.log == [] && r.filename == ""
    ensures r.shared == shared
  {
    Entry("", None, shared, false, [])
  }

  /** Init: the file name comes from the `mediaName` key when present (any
      string, the empty one included) and the base entry's result is
      returned; without the key nothing changes and the result is 0. */
  function Init(e: Entry, config: map<string, string>, baseInit: int): (r: Outcome)
    ensures r.Returned?
    ensures "mediaName" !in config ==> r.entry == e && r.code == 0
    ensures "mediaName" in config ==>
      r.entry.filename == config["mediaName"] && r.code == baseInit
      && r.entry == e.(filename := r.entry.filename)
  {
    if "mediaName" !in config then Returned(e, 0)
    else Returned(e.(filename := config["mediaName"]), baseInit)
  }

  /** CloseMediaOutput: the shared status goes IDLE in every case; an empty
      slot answers 0 and changes nothing else; otherwise the backend is
      stopped if it has a child, the master sends a sync-stop naming the
      handle's own path, the slot is emptied and the answer is 1. */
  function CloseMediaOutput(e: Entry, env: Env): (r: Outcome)
    ensures r.Blocked? <==> e.lockHeld
    ensures r.Returned? ==>
      && r.entry.output.None?
      && r.entry.shared == e.shared.(status := StatusIdle)
      && r.entry.filename == e.filename
      && !r.entry.lockHeld
    ensures r.Returned? && e.output.None? ==> r.code == 0 && r.entry.log == e.log
    ensures r.Returned? && e.output.Some? ==>
      var h := e.output.value;
      && r.code == 1
      && (h.childPID == 0 ==> r.entry.log == e.log + SyncIfMaster(env, SyncStopSent(h.mediaFilename)))
      && (h.childPID != 0 ==>
            r.entry.log == e.log + [BackendStopped(h.childPID)] + SyncIfMaster(env, SyncStopSent(h.mediaFilename)))
  {
    var idle := e.(shared := e.shared.(status := StatusIdle));
    if e.lockHeld then Blocked
    else
      match e.output
      case None => Returned(idle, 0)
      case Some(h) =>
        var stopped := if h.childPID != 0 then [BackendStopped(h.childPID)] else [];
        Returned(idle.(output := None, log := e.log + stopped + SyncIfMaster(env, SyncStopSent(h.mediaFilename))), 1)
  }

  /** The first lines of OpenMediaOutput: a handle still in the slot is
      closed, with all of CloseMediaOutput's effects, before a new one is
      made; with the slot already empty nothing happens. */
  function ReleaseExisting(e: Entry, env: Env): (r: Entry)
    requires !e.lockHeld
    ensures r.output.None? && !r.lockHeld && r.filename == e.filename
    ensures e.output.None? ==> r == e
    ensures e.output.Some? ==> Returned(r, 1) == CloseMediaOutput(e, env)
  {
    if e.output.Some? then CloseMediaOutput(e, env).entry else e
  }

  /** The rest of OpenMediaOutput, run with the slot empty and the mutex
      taken. No extension: answer 0 with the mutex still held. No backend:
      answer 0 with the slot empty, the mutex still held exactly when the
      final `else` of the selection was taken. Otherwise the backend chosen
      by the ORIGINAL extension is created on the resolved path, the master
      announces the configured name (not the resolved path) before Start(),
      and the slot keeps the handle, with speedDelta reset, exactly when
      Start() succeeds. */
  function OpenSlot(e: Entry, env: Env, start: StartReport): (r: Outcome)
    requires !e.lockHeld && e.output.None?
    ensures r.Returned? && r.entry.filename == e.filename
    ensures Extension(e.filename).None? ==> r == Returned(e.(lockHeld := true), 0)
    ensures Extension(e.filename).Some? ==>
      var ext := Extension(e.filename).value;
      var path := ResolvePath(e.filename, ext, env.mode == RemoteMode);
      match SelectBackend(ext, env.settings, env.isPi)
      case None =>
        r == Returned(e.(lockHeld := FallsToElse(ext, env.settings, env.isPi)), 0)
      case Some(kind) =>
        && !r.entry.lockHeld
        && r.entry.log == e.log + SyncIfMaster(env, SyncStartSent(e.filename)) + [BackendStarted(kind, path)]
        && (start.ok ==>
              && r.code == 1
              && r.entry.output == Some(Handle(kind, start.childPID, path))
              && r.entry.shared == start.status.(speedDelta := 0))
        && (!start.ok ==>
              && r.code == 0
              && r.entry.output.None?
              && r.entry.shared == start.status)
  {
    match Extension(e.filename)
    case None => Returned(e.(lockHeld := true), 0)
    case Some(ext) =>
      var path := ResolvePath(e.filename, ext, env.mode == RemoteMode);
      match SelectBackend(ext, env.settings, env.isPi)
      case None =>
        // the legacy branch reaches the `!m_mediaOutput` test and unlocks;
        // the final `else` unlocks a different mutex
        Returned(e.(lockHeld := FallsToElse(ext, env.settings, env.isPi)), 0)
      case Some(kind) =>
        var announced := e.log + SyncIfMaster(env, SyncStartSent(e.filename)) + [BackendStarted(kind, path)];
        if !start.ok then
          Returned(e.(shared := start.status, log := announced), 0)
        else
          Returned(e.(output := Some(Handle(kind, start.childPID, path)),
                      shared := start.status.(speedDelta := 0),
                      log := announced), 1)
  }

  /** OpenMediaOutput. It answers 1 exactly when a handle ends up in the
      slot, which needs an extension, a backend for it and a successful
      Start(); on every failure the slot is empty. The mutex stays held
      afterwards exactly when the name has no '.' or the selection's final
      `else` was taken. */
  function OpenMediaOutput(e: Entry, env: Env, start: StartReport): (r: Outcome)
    ensures r.Blocked? <==> e.lockHeld
    ensures r.Returned? ==>
      && r.entry.filename == e.filename
      && (r.code == 1 || r.code == 0)
      && (r.code == 1 <==> r.entry.output.Some?)
      && (r.code == 1 <==>
            && start.ok
            && Extension(e.filename).Some?
            && SelectBackend(Extension(e.filename).value, env.settings, env.isPi).Some?)
      && (r.entry.lockHeld <==>
            || Extension(e.filename).None?
            || FallsToElse(Extension(e.filename).value, env.settings, env.isPi))
  {
    if e.lockHeld then Blocked
    else OpenSlot(ReleaseExisting(e, env), env, start)
  }

  /** StartPlaying. Not allowed to play: the completion hook runs once and
      the answer is 0, with nothing opened. A failed open answers 0 and
      publishes nothing. A successful open publishes the file name once,
      then looks up the media details, notifies plugins and lets the base
      entry finish starting, whose answer is returned. */
  function StartPlaying(e: Entry, env: Env, canPlay: bool, start: StartReport, baseStart: int): (r: Outcome)
    ensures !canPlay ==> r == Returned(e.(log := e.log + [FinishPlayed]), 0)
    ensures canPlay ==> (r.Blocked? <==> e.lockHeld)
    ensures canPlay && r.Returned? ==>
      var o := OpenMediaOutput(e, env, start);
      && o.Returned?
      && (o.code == 0 ==> r == o)
      && (o.code != 0 ==>
            && r.code == baseStart
            && r.entry == o.entry.(log := r.entry.log)
            && r.entry.log == o.entry.log + Publish(env, e.filename)
                 + [MediaParsed(e.filename), MediaCallback, BaseStarted])
  {
    if !canPlay then Returned(e.(log := e.log + [FinishPlayed]), 0)
    else
      match OpenMediaOutput(e, env, start)
      case Blocked => Blocked
      case Returned(ready, code) =>
        if code == 0 then Returned(ready, 0)
        else
          var log := ready.log + Publish(env, e.filename) + [MediaParsed(e.filename), MediaCallback, BaseStarted];
          Returned(ready.(log := log), baseStart)
  }

  /** Process: with a handle in the slot the backend is polled and the
      shared status becomes what the poll left; the base entry's answer is
      returned. */
  function Process(e: Entry, polled: MediaStatus, baseProcess: int): (r: Outcome)
    ensures r.Blocked? <==> e.lockHeld
    ensures r.Returned? ==>
      && r.code == baseProcess
      && r.entry.output == e.output
      && r.entry.filename == e.filename
      && (e.output.None? ==> r.entry == e)
      && (e.output.Some? ==> r.entry == e.(shared := polled, log := e.log + [BackendPolled]))
  {
    if e.lockHeld then Blocked
    else if e.output.None? then Returned(e, baseProcess)
    else Returned(e.(shared := polled, log := e.log + [BackendPolled]), baseProcess)
  }

  /** Stop: the output is always closed, then an empty name is published,
      whether or not a handle existed; the base entry's answer is returned. */
  function Stop(e: Entry, env: Env, baseStop: int): (r: Outcome)
    ensures r.Blocked? <==> e.lockHeld
    ensures r.Returned? ==>
      var c := CloseMediaOutput(e, env);
      && c.Returned?
      && r.code == baseStop
      && r.entry == c.entry.(log := c.entry.log + Publish(env, ""))
  {
    match CloseMediaOutput(e, env)
    case Blocked => Blocked
    case Returned(closed, _) => Returned(closed.(log := closed.log + Publish(env, "")), baseStop)
  }

  /** HandleSigChild for a child that exited. It first takes the mutex; once
      it has it, the slot must hold a handle, because the program reads the
      handle's child id without a check. A different id is ignored: answer 0
      and nothing changes. The matching id closes the backend (`closed` is
      the shared status as the backend's Close() left it), empties the slot,
      runs the completion hook once, then publishes an empty name, and
      answers 1. The entry itself writes no status here. */
  function HandleSigChild(e: Entry, env: Env, pid: int, closed: MediaStatus): (r: Outcome)
    requires e.lockHeld || e.output.Some?
    ensures r.Blocked? <==> e.lockHeld
    ensures r.Returned? && pid != e.output.value.childPID ==> r == Returned(e, 0)
    ensures r.Returned? && pid == e.output.value.childPID ==>
      && r.code == 1
      && r.entry == e.(output := None, shared := closed, log := r.entry.log)
      && r.entry.log == e.log + [BackendClosed(pid), FinishPlayed] + Publish(env, "")
  {
    if e.lockHeld then Blocked
    else if pid != e.output.value.childPID then Returned(e, 0)
    else
      Returned(e.(output := None, shared := closed,
                  log := e.log + [BackendClosed(pid), FinishPlayed] + Publish(env, "")), 1)
  }

  /** The keys GetConfig writes over the base entry's record. */
  const MediaKeys: set<string> := {
    "mediaFilename", "status", "secondsElapsed", "subSecondsElapsed",
    "secondsRemaining", "subSecondsRemaining", "minutesTotal",
    "secondsTotal", "mediaSeconds", "speedDelta" }

  /** GetConfig: the base entry's record with the file name and a copy of
      the current shared status written over it; every other key of the
      base record survives untouched. */
  function GetConfig(e: Entry, base: map<string, JsonValue>): (r: map<string, JsonValue>)
    ensures r.Keys == base.Keys + MediaKeys
    ensures forall k :: k in base && k !in MediaKeys ==> r[k] == base[k]
    ensures r["mediaFilename"] == JString(e.filename)
    ensures r["status"] == JInt(e.shared.status)
    ensures r["secondsElapsed"] == JInt(e.shared.secondsElapsed)
    ensures r["subSecondsElapsed"] == JInt(e.shared.subSecondsElapsed)
    ensures r["secondsRemaining"] == JInt(e.shared.secondsRemaining)
    ensures r["subSecondsRemaining"] == JInt(e.shared.subSecondsRemaining)
    ensures r["minutesTotal"] == JInt(e.shared.minutesTotal)
    ensures r["secondsTotal"] == JInt(e.shared.secondsTotal)
    ensures r["mediaSeconds"] == JReal(e.shared.mediaSeconds)
    ensures r["speedDelta"] == JInt(e.shared.speedDelta)
  {
    var s := e.shared;
    base[
      "mediaFilename" := JString(e.filename)][
      "status" := JInt(s.status)][
      "secondsElapsed" := JInt(s.secondsElapsed)][
      "subSecondsElapsed" := JInt(s.subSecondsElapsed)][
      "secondsRemaining" := JInt(s.secondsRemaining)][
      "subSecondsRemaining" := JInt(s.subSecondsRemaining)][
      "minutesTotal" := JInt(s.minutesTotal)][
      "secondsTotal" := JInt(s.secondsTotal)][
      "mediaSeconds" := JReal(s.mediaSeconds)][
      "speedDelta" := JInt(s.speedDelta)]
  }
}
