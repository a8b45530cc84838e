/** Properties of whole play cycles of a media entry: what an open followed
    by a stop or by the child's exit leaves behind and shows to the outside,
    how stale exit notifications are told apart, and how the early returns
    that keep the slot mutex held lock the entry out. */
module EntryProperties {
  import opened Wrappers
  import opened MediaPath
  import opened BackendSelection
  import opened MediaLog
  import opened PlaylistEntryMedia

  /** Ready to open: the mutex free and no handle in the slot. */
  predicate Ready(e: Entry) {
    !e.lockHeld && e.output.None?
  }

  /** The configured name has an extension that the configuration can play. */
  predicate Playable(e: Entry, env: Env) {
    && Extension(e.filename).Some?
    && SelectBackend(Extension(e.filename).value, env.settings, env.isPi).Some?
  }

  /** The backend chosen for the configured name. */
  function ChosenKind(e: Entry, env: Env): BackendKind
    requires Playable(e, env)
  {
    SelectBackend(Extension(e.filename).value, env.settings, env.isPi).value
  }

  /** The path the backend is created on. */
  function ChosenPath(e: Entry, env: Env): string
    requires Extension(e.filename).Some?
  {
    var ext := Extension(e.filename).value;
    ResolvePath(e.filename, ext, env.mode == RemoteMode)
  }

  /** What a successful StartPlaying does on a ready entry, stated in one
      place: the handle it leaves and the events it logs, in order. */
  lemma StartSucceeds(e: Entry, env: Env, start: StartReport, b: int)
    requires Ready(e) && Playable(e, env) && start.ok
    ensures var s := StartPlaying(e, env, true, start, b);
      && s.Returned?
      && s.code == b
      && s.entry.filename == e.filename
      && !s.entry.lockHeld
      && s.entry.output == Some(Handle(ChosenKind(e, env), start.childPID, ChosenPath(e, env)))
      && s.entry.shared == start.status.(speedDelta := 0)
      && s.entry.log == e.log
           + SyncIfMaster(env, SyncStartSent(e.filename))
           + [BackendStarted(ChosenKind(e, env), ChosenPath(e, env))]
           + Publish(env, e.filename)
           + [MediaParsed(e.filename), MediaCallback, BaseStarted]
  {
  }

  /** The events Stop adds for a handle in the slot. */
  lemma StopOfHandle(e: Entry, env: Env, b: int)
    requires !e.lockHeld && e.output.Some?
    ensures var h := e.output.value;
      var t := Stop(e, env, b);
      && t.Returned?
      && t.entry.output.None?
      && t.entry.shared.status == StatusIdle
      && t.entry.log == e.log
           + ((if h.childPID != 0 then [BackendStopped(h.childPID)] else [])
              + SyncIfMaster(env, SyncStopSent(h.mediaFilename)))
           + Publish(env, "")
  {
  }

  /** A cycle StartPlaying then Stop publishes the file name and then the
      empty name, nothing else, and leaves the slot empty and IDLE. */
  lemma {:induction false} StartThenStopPublishes(e: Entry, env: Env, start: StartReport, b1: int, b2: int)
    requires Ready(e) && Playable(e, env) && start.ok && env.mqttPresent
    ensures var s := StartPlaying(e, env, true, start, b1);
      && s.Returned?
      && var t := Stop(s.entry, env, b2);
      && t.Returned?
      && t.entry.output.None?
      && t.entry.shared.status == StatusIdle
      && Filter(t.entry.log, IsPublish) == Filter(e.log, IsPublish) + [Published(e.filename), Published("")]
  {
    StartSucceeds(e, env, start, b1);
    var s := StartPlaying(e, env, true, start, b1).entry;
    var h := s.output.value;
    StopOfHandle(s, env, b2);
    var t := Stop(s, env, b2).entry;
    var opening := SyncIfMaster(env, SyncStartSent(e.filename)) + [BackendStarted(h.kind, h.mediaFilename)];
    var parsed := [MediaParsed(e.filename), MediaCallback, BaseStarted];
    var stopped := (if h.childPID != 0 then [BackendStopped(h.childPID)] else [])
                   + SyncIfMaster(env, SyncStopSent(h.mediaFilename));
    assert s.log == e.log + opening + [Published(e.filename)] + parsed;
    assert t.log == s.log + stopped + [Published("")];
    assert t.log == e.log + opening + [Published(e.filename)] + (parsed + stopped) + [Published("")] + [];
    FilterAddsTwo(e.log, opening, Published(e.filename), parsed + stopped, Published(""), [], IsPublish);
  }

  /** Stop after a start that logged `opening`, the sync-start and the
      rest of the start in `started`: the sync packets add up to one start
      and one stop naming the handle's path. */
  lemma {:induction false} SyncsOfStartedThenStopped(base: seq<Event>, f: string, started: seq<Event>, s: Entry, env: Env, b: int)
    requires !s.lockHeld && s.output.Some? && env.mode == MasterMode
    requires forall i :: 0 <= i < |started| ==> !IsSync(started[i])
    requires s.log == base + [SyncStartSent(f)] + started
    ensures var t := Stop(s, env, b);
      && t.Returned?
      && Filter(t.entry.log, IsSync) == Filter(base, IsSync) + [SyncStartSent(f), SyncStopSent(s.output.value.mediaFilename)]
  {
    var h := s.output.value;
    StopOfHandle(s, env, b);
    var t := Stop(s, env, b).entry;
    var stopped := if h.childPID != 0 then [BackendStopped(h.childPID)] else [];
    assert t.log == base + [] + [SyncStartSent(f)] + (started + stopped) + [SyncStopSent(h.mediaFilename)] + Publish(env, "");
    FilterAddsTwo(base, [], SyncStartSent(f), started + stopped, SyncStopSent(h.mediaFilename), Publish(env, ""), IsSync);
  }

  /** On the master the sync-start and sync-stop of one cycle name the same
      file, the configured one: without the follower rewrite the resolved
      path is the configured name. */
  lemma {:induction false} MasterSyncPacketsPair(e: Entry, env: Env, start: StartReport, b1: int, b2: int)
    requires Ready(e) && Playable(e, env) && start.ok && env.mode == MasterMode
    ensures var s := StartPlaying(e, env, true, start, b1);
      && s.Returned?
      && var t := Stop(s.entry, env, b2);
      && t.Returned?
      && Filter(t.entry.log, IsSync) == Filter(e.log, IsSync) + [SyncStartSent(e.filename), SyncStopSent(e.filename)]
  {
    StartSucceeds(e, env, start, b1);
    var s := StartPlaying(e, env, true, start, b1).entry;
    var started := [BackendStarted(ChosenKind(e, env), ChosenPath(e, env))] + Publish(env, e.filename)
                   + [MediaParsed(e.filename), MediaCallback, BaseStarted];
    assert s.log == e.log + [SyncStartSent(e.filename)] + started;
    assert s.output.value.mediaFilename == e.filename;
    SyncsOfStartedThenStopped(e.log, e.filename, started, s, env, b2);
  }

  /** A child exit after a start that published `f`: the hook runs once and
      the empty name follows `f` among the publishes. */
  lemma {:induction false} ExitAfterPublish(base: seq<Event>, opening: seq<Event>, f: string, parsed: seq<Event>, s: Entry, env: Env, closed: MediaStatus)
    requires !s.lockHeld && s.output.Some? && env.mqttPresent
    requires forall i :: 0 <= i < |opening| ==> !IsPublish(opening[i]) && !IsFinish(opening[i])
    requires forall i :: 0 <= i < |parsed| ==> !IsPublish(parsed[i]) && !IsFinish(parsed[i])
    requires s.log == base + opening + [Published(f)] + parsed
    ensures var t := HandleSigChild(s, env, s.output.value.childPID, closed);
      && t == Returned(t.entry, 1)
      && t.entry.output.None?
      && Filter(t.entry.log, IsFinish) == Filter(base, IsFinish) + [FinishPlayed]
      && Filter(t.entry.log, IsPublish) == Filter(base, IsPublish) + [Published(f), Published("")]
  {
    var pid := s.output.value.childPID;
    var t := HandleSigChild(s, env, pid, closed).entry;
    var tail := parsed + [BackendClosed(pid)];
    var pre := opening + [Published(f)] + tail;
    assert t.log == s.log + [BackendClosed(pid), FinishPlayed, Published("")];
    assert t.log == base + pre + [FinishPlayed] + [Published("")];
    FilterAddsOne(base, pre, FinishPlayed, [Published("")], IsFinish);
    assert t.log == base + opening + [Published(f)] + (tail + [FinishPlayed]) + [Published("")] + [];
    FilterAddsTwo(base, opening, Published(f), tail + [FinishPlayed], Published(""), [], IsPublish);
  }

  /** StartPlaying followed by the exit of the spawned child: the slot is
      empty, the completion hook ran exactly once and the publishes were the
      file name then the empty name. */
  lemma {:induction false} StartThenChildExit(e: Entry, env: Env, start: StartReport, b: int, closed: MediaStatus)
    requires Ready(e) && Playable(e, env) && start.ok && env.mqttPresent
    ensures var s := StartPlaying(e, env, true, start, b);
      && s.Returned? && s.entry.output.Some?
      && var t := HandleSigChild(s.entry, env, start.childPID, closed);
      && t == Returned(t.entry, 1)
      && t.entry.output.None?
      && Filter(t.entry.log, IsFinish) == Filter(e.log, IsFinish) + [FinishPlayed]
      && Filter(t.entry.log, IsPublish) == Filter(e.log, IsPublish) + [Published(e.filename), Published("")]
  {
    StartSucceeds(e, env, start, b);
    var s := StartPlaying(e, env, true, start, b).entry;
    var opening := SyncIfMaster(env, SyncStartSent(e.filename))
                   + [BackendStarted(ChosenKind(e, env), ChosenPath(e, env))];
    var parsed := [MediaParsed(e.filename), MediaCallback, BaseStarted];
    assert s.log == e.log + opening + [Published(e.filename)] + parsed;
    ExitAfterPublish(e.log, opening, e.filename, parsed, s, env, closed);
  }

  /** After a new output replaced an old one, the old child's exit is stale:
      if the ids differ it is ignored and the new handle stays. */
  lemma StaleExitIgnoredAfterReplacement(e: Entry, env: Env, start: StartReport, closed: MediaStatus)
    requires !e.lockHeld && e.output.Some? && Playable(e, env) && start.ok
    requires e.output.value.childPID != start.childPID
    ensures var o := OpenMediaOutput(e, env, start);
      && o == Returned(o.entry, 1)
      && o.entry.output.value.childPID == start.childPID
      && HandleSigChild(o.entry, env, e.output.value.childPID, closed) == Returned(o.entry, 0)
  {
  }

  /** Replacing a handle closes the old one first: its stop and the master's
      sync-stop for it are logged before the new backend is started. */
  lemma ReplacementClosesFirst(e: Entry, env: Env, start: StartReport)
    requires !e.lockHeld && e.output.Some? && Playable(e, env)
    requires e.output.value.childPID != 0 && env.mode == MasterMode
    ensures var h := e.output.value;
      var o := OpenMediaOutput(e, env, start);
      && o.Returned?
      && o.entry.log == e.log
           + [BackendStopped(h.childPID), SyncStopSent(h.mediaFilename)]
           + [SyncStartSent(e.filename), BackendStarted(ChosenKind(e, env), ChosenPath(e, env))]
  {
  }

  /** The choice a follower on the legacy outputs makes for `stem.mp3`. */
  lemma FollowerChoice(e: Entry, env: Env, stem: string)
    requires env.mode == RemoteMode && LegacyOutputs(env.settings)
    requires e.filename == stem + ".mp3"
    ensures Playable(e, env)
    ensures ChosenKind(e, env) == Mpg123
    ensures ChosenPath(e, env) == stem + ".mp4"
    ensures Extension(stem + ".mp4") == Some("mp4")
  {
    assert e.filename == stem + "." + "mp3";
    ResolvedAudioBecomesMp4(stem, "mp3");
  }

  /** The REMOTE-mode rewrite does not re-run the selection: a follower on
      the legacy outputs playing `stem.mp3` gets an mpg123 backend fed
      `stem.mp4`, a file whose own extension no legacy backend plays. */
  lemma FollowerKeepsAudioBackend(e: Entry, env: Env, start: StartReport, stem: string, b: int)
    requires Ready(e) && start.ok
    requires env.mode == RemoteMode && LegacyOutputs(env.settings)
    requires e.filename == stem + ".mp3"
    ensures var s := StartPlaying(e, env, true, start, b);
      && s.Returned?
      && s.entry.output == Some(Handle(Mpg123, start.childPID, stem + ".mp4"))
      && Extension(s.entry.output.value.mediaFilename) == Some("mp4")
      && SelectBackend("mp4", env.settings, env.isPi).None?
  {
    FollowerChoice(e, env, stem);
    StartSucceeds(e, env, start, b);
  }

  /** A name without '.' fails to open and keeps the slot mutex, so every
      later call that takes it (Stop, Process, StartPlaying, a child exit,
      even with the slot empty) never returns. */
  lemma NoExtensionLocksOut(e: Entry, env: Env, start: StartReport, polled: MediaStatus, b1: int, b2: int, b3: int)
    requires Ready(e) && '.' !in e.filename
    ensures var s := StartPlaying(e, env, true, start, b1);
      && s == Returned(e.(lockHeld := true), 0)
      && Stop(s.entry, env, b2).Blocked?
      && Process(s.entry, polled, b3).Blocked?
      && StartPlaying(s.entry, env, true, start, b1).Blocked?
      && HandleSigChild(s.entry, env, b3, polled).Blocked?
  {
  }

  /** With ForceSDL on and legacy outputs off, an extension no backend plays
      reaches the selection's final `else`, which releases a different
      mutex: the entry is locked out afterwards. On the legacy branch the
      same name fails cleanly. */
  lemma UnplayableLockOutDependsOnBranch(e: Entry, env: Env, start: StartReport, b: int)
    requires Ready(e) && Extension(e.filename).Some?
    requires !IsAudioExtension(Extension(e.filename).value) && !IsVideoExtension(Extension(e.filename).value)
    ensures var s := StartPlaying(e, env, true, start, b);
      && s.Returned? && s.code == 0 && s.entry.output.None?
      && (s.entry.lockHeld <==> !LegacyOutputs(env.settings))
      && (Stop(s.entry, env, b).Blocked? <==> !LegacyOutputs(env.settings))
  {
  }

  /** A failed Start() leaves nothing behind: empty slot, mutex free, no
      publish, answer 0. */
  lemma FailedStartLeavesNothing(e: Entry, env: Env, start: StartReport, b: int)
    requires Ready(e) && Playable(e, env) && !start.ok
    ensures var s := StartPlaying(e, env, true, start, b);
      && s == Returned(s.entry, 0)
      && s.entry.output.None? && !s.entry.lockHeld
      && |e.log| <= |s.entry.log|
      && Filter(s.entry.log[|e.log|..], IsPublish) == []
  {
  }

  /** Not allowed to play: the completion hook runs exactly once and no
      backend is started, whatever the state of the mutex. */
  lemma CannotPlayFinishesOnce(e: Entry, env: Env, start: StartReport, b: int)
    ensures var s := StartPlaying(e, env, false, start, b);
      && s == Returned(s.entry, 0)
      && s.entry.output == e.output
      && s.entry.log[..|e.log|] == e.log
      && Filter(s.entry.log[|e.log|..], IsFinish) == [FinishPlayed]
      && Filter(s.entry.log[|e.log|..], IsBackendStart) == []
  {
  }

  /** Closing twice: the second close answers 0 and changes nothing. */
  lemma CloseIsIdempotent(e: Entry, env: Env)
    requires !e.lockHeld
    ensures var c := CloseMediaOutput(e, env);
      && c.Returned?
      && CloseMediaOutput(c.entry, env) == Returned(c.entry, 0)
  {
  }

  /** Stop with nothing playing: the slot stays empty, only the status code
      goes IDLE, and the only event is the empty-name publish. */
  lemma StopWhenIdle(e: Entry, env: Env, b: int)
    requires Ready(e)
    ensures Stop(e, env, b) ==
      Returned(e.(shared := e.shared.(status := StatusIdle), log := e.log + Publish(env, "")), b)
  {
  }

  /** A matched child exit empties the slot with the mutex free, so any
      later exit notification fails HandleSigChild's precondition: the
      program would read the child id through a null handle. */
  lemma ExitLeavesNoHandle(e: Entry, env: Env, closed: MediaStatus)
    requires !e.lockHeld && e.output.Some?
    ensures var t := HandleSigChild(e, env, e.output.value.childPID, closed);
      && t.Returned? && t.code == 1
      && !(t.entry.lockHeld || t.entry.output.Some?)
  {
  }

  /** Init followed by GetConfig reports the configured name, and the status
      fields are those of the shared record, not zeroes of the entry's own. */
  lemma InitThenGetConfig(shared: MediaStatus, name: string, baseInit: int, base: map<string, JsonValue>)
    ensures var i := Init(New(shared), map["mediaName" := name], baseInit);
      && i == Returned(i.entry, baseInit)
      && i.entry.shared == shared
      && GetConfig(i.entry, base)["mediaFilename"] == JString(name)
      && GetConfig(i.entry, base)["status"] == JInt(shared.status)
      && GetConfig(i.entry, base)["secondsElapsed"] == JInt(shared.secondsElapsed)
  {
  }

  /** Stop and a child exit treat the status differently. Stop's close
      writes IDLE itself; a child exit writes no status at all, so the
      status is whatever the backend's Close() left, IDLE or not. */
  lemma ExitStatusIsBackends(e: Entry, env: Env, closed: MediaStatus, b: int)
    requires !e.lockHeld && e.output.Some?
    ensures var t := HandleSigChild(e, env, e.output.value.childPID, closed);
      && t.Returned? && t.entry.output.None?
      && t.entry.shared == closed
    ensures Stop(e, env, b).entry.shared.status == StatusIdle
  {
  }

  /** A poll between start and stop is invisible to what follows: a later
      Stop adds the same stop, sync-stop and publish events as it would
      have without the poll, and a child exit is accepted for exactly the
      pid it would have been accepted for before. */
  lemma PollKeepsExitMatching(e: Entry, env: Env, polled: MediaStatus, closed: MediaStatus, b: int, pid: int)
    requires !e.lockHeld && e.output.Some?
    ensures var p := Process(e, polled, b);
      && p.Returned?
      && |e.log| <= |Stop(e, env, b).entry.log| && |p.entry.log| <= |Stop(p.entry, env, b).entry.log|
      && Stop(p.entry, env, b).entry.log[|p.entry.log|..] == Stop(e, env, b).entry.log[|e.log|..]
      && (HandleSigChild(p.entry, env, pid, closed).code == 1 <==> pid == e.output.value.childPID)
  {
  }
}
