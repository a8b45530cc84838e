# Media playlist entry (Falcon Player)

A Dafny model of `PlaylistEntryMedia`, the playlist entry that plays one
media file in the Falcon Player. The entry:

- takes its file name from the `mediaName` key of its configuration;
- works out the file's extension;
- on a follower (REMOTE mode), swaps an audio file for its `.mp4` companion;
- picks a playback backend: mpg123, ogg123, SDL or omxplayer;
- keeps that backend in a single output slot guarded by a mutex;
- tears the backend down on Stop or when its child process exits;
- publishes status over MQTT and, on the master, sends media sync packets.

The model is functional. An `Entry` is an immutable record that holds:

- the file name;
- the output slot, `Option<Handle>`;
- the shared media output status record;
- whether the slot mutex is held;
- one ordered log of every outside effect: publishes, sync packets, backend
  calls, completion-hook calls.

Each operation is a pure function from an entry, and from the settings and
oracle results it needs, to an `Outcome`. An outcome is either
`Returned(entry, code)` or `Blocked`. `Blocked` stands for a call that locks
the slot mutex while an earlier early return has left it held. A
non-recursive mutex re-locked by the same thread never returns.

Modules:

- `Wrappers`: `Option`.
- `MediaPath`: last-dot extension, `std::string::replace`, and the follower's
  audio-to-mp4 path rewrite.
- `BackendSelection`: the backend choice, with a reference table of which
  backend plays what and which backends each configuration offers.
- `MediaLog`: the effect log and filtering over it.
- `PlaylistEntryMedia`: the entry and its operations.
- `EntryProperties`: properties of whole play cycles (start then stop, start
  then child exit, replacement, lock-out).

The model keeps these behaviours of the code as written:

- The backend is chosen from the ORIGINAL extension, even after the follower
  rewrite. A follower on the legacy outputs therefore plays `x.mp4` through
  mpg123.
- The legacy branch never falls through to SDL or omxplayer.
- Closing an empty slot answers 0.
- `HandleSigChild` reads the handle without a null check once it holds the
  mutex, so it requires a non-empty slot unless the mutex is already held.
- Two early returns leave the slot mutex held: a name without `.`, and the
  final `else` of the selection. The final `else` unlocks a different mutex.

Behaviours a reader might not expect:

- `Init` accepts any `mediaName` value, the empty string included.
- The follower rewrite does not re-run the selection on the new extension.
- A child exit writes no status of its own. The shared status is whatever
  the backend's `Close()` left, while `CloseMediaOutput` writes IDLE itself.
  `EntryProperties.ExitStatusIsBackends` states the difference.
- `GetConfig` reports the shared status record as it is. Neither GetConfig
  nor the entry's own code zeroes its numeric fields when the slot is empty.
- A handle whose child id is 0 still matches a notification for pid 0.
- After a matched child exit the slot is empty. A second notification then
  reads the child id through a null handle at line 162.

`MEDIAOUTPUTSTATUS_IDLE` is taken to be 0. Its header, `mediaoutput.h`, is
not part of this model.

## Model

| member | source | states |
|---|---|---|
| MediaPath.LastIndexOf | src/playlist/PlaylistEntryMedia.cpp:211-213 | `find_last_of(".")`: absent exactly when the character does not occur; otherwise the index holds the character and no later index does |
| MediaPath.LastIndexOfSkipsSuffix | src/playlist/PlaylistEntryMedia.cpp:211 | appending characters that are not the searched one leaves the last occurrence where it was |
| MediaPath.Extension | src/playlist/PlaylistEntryMedia.cpp:210-220 | no extension exactly when the name has no `.`; otherwise the extension is dot-free and the name is `stem + "." + extension` |
| MediaPath.ExtensionOfDotted | src/playlist/PlaylistEntryMedia.cpp:211-220 | converse of `Extension`: any dot-free tail after a `.` is the extension, so the extension is uniquely determined |
| MediaPath.ResolvePath | src/playlist/PlaylistEntryMedia.cpp:222-234 | in REMOTE mode with mp3/ogg/m4a, the resolved path keeps the length and every character but the last three, which become `mp4`; otherwise it is the configured name |
| MediaPath.ResolvedAudioBecomesMp4 | src/playlist/PlaylistEntryMedia.cpp:222-234 | the rewritten path for `stem.<audio>` is `stem.mp4`, and its own extension is `mp4` |
| BackendSelection.SelectBackend | src/playlist/PlaylistEntryMedia.cpp:237-256 | a backend is chosen exactly when it is offered by the settings/platform and plays the extension; none exactly when no offered backend plays it; hence the choice is unique |
| BackendSelection.NoBackendCases | src/playlist/PlaylistEntryMedia.cpp:237-262 | no backend arises exactly from the legacy branch seeing something other than mp3/ogg, or from the final `else`; the two are exclusive |
| BackendSelection.VideoNeedsForceSdlOnPi | src/playlist/PlaylistEntryMedia.cpp:243-251 | omxplayer is chosen only with ForceSDL set, legacy outputs off, on a Pi, for mp4/mkv |
| BackendSelection.LegacyHasNoFallThrough | src/playlist/PlaylistEntryMedia.cpp:237-242 | on the legacy branch anything but mp3/ogg gets no backend, even m4a which SDL would play |
| PlaylistEntryMedia.New | src/playlist/PlaylistEntryMedia.cpp:44-62 | a new entry has an empty slot, a free mutex and no effects yet |
| PlaylistEntryMedia.Init | src/playlist/PlaylistEntryMedia.cpp:75-88 | without `mediaName`: answer 0, entry unchanged; with it: the file name becomes that value (possibly empty), nothing else changes, the base answer is returned |
| PlaylistEntryMedia.CloseMediaOutput | src/playlist/PlaylistEntryMedia.cpp:286-312 | status goes IDLE always; empty slot answers 0 with no effects; otherwise the backend is stopped only if it has a child, the master's sync-stop names the handle's own path, the slot is emptied, answer 1; blocks exactly when the mutex is held |
| PlaylistEntryMedia.ReleaseExisting | src/playlist/PlaylistEntryMedia.cpp:201-206 | an occupied slot is fully closed before a new open; an empty one is left untouched |
| PlaylistEntryMedia.OpenSlot | src/playlist/PlaylistEntryMedia.cpp:208-281 | no `.`: answer 0, mutex kept; no backend: answer 0, mutex kept exactly on the final `else`; else the original extension's backend is made on the resolved path, the master announces the configured name before Start(), the slot keeps it (speedDelta 0) exactly when Start() succeeds |
| PlaylistEntryMedia.OpenMediaOutput | src/playlist/PlaylistEntryMedia.cpp:197-281 | answer 1 exactly when a handle is in the slot, exactly when there is an extension, a backend and a successful Start(); mutex left held exactly on the no-`.` and final-`else` paths |
| PlaylistEntryMedia.StartPlaying | src/playlist/PlaylistEntryMedia.cpp:93-113 | not playable: completion hook once, answer 0, nothing opened; failed open: answer 0 and no publish; success: the name is published once, before media lookup, plugin notification and the base start |
| PlaylistEntryMedia.Process | src/playlist/PlaylistEntryMedia.cpp:118-136 | a present backend is polled and its status taken over, with the slot, mutex and name unchanged; an empty slot changes nothing; the base answer is returned |
| PlaylistEntryMedia.Stop | src/playlist/PlaylistEntryMedia.cpp:141-151 | always closes, then publishes the empty name; the base answer is returned |
| PlaylistEntryMedia.HandleSigChild | src/playlist/PlaylistEntryMedia.cpp:156-182 | blocks exactly when the mutex is held (even on an empty slot); otherwise a handle must be present; a foreign pid answers 0 with no change; the matching pid closes the backend, empties the slot, leaves the status as Close() reported it, runs the completion hook once, publishes the empty name, answers 1 |
| PlaylistEntryMedia.GetConfig | src/playlist/PlaylistEntryMedia.cpp:317-335 | the base record keeps every other key; the ten media keys carry the name and the shared status fields |
| EntryProperties.StartSucceeds | src/playlist/PlaylistEntryMedia.cpp:93-113 | a successful start from a ready entry leaves exactly the chosen handle and logs sync-start, backend start, publish, media lookup, plugin callback, base start, in that order |
| EntryProperties.StopOfHandle | src/playlist/PlaylistEntryMedia.cpp:141-151 | Stop with a handle empties the slot, sets IDLE and logs the stop events followed by the empty-name publish |
| EntryProperties.StartThenStopPublishes | src/playlist/PlaylistEntryMedia.cpp:106-107 | a start/stop cycle adds exactly two publishes, the name then the empty name, and ends idle |
| EntryProperties.MasterSyncPacketsPair | src/playlist/PlaylistEntryMedia.cpp:264-265 | on the master a start/stop cycle sends exactly a sync-start and a sync-stop naming the same configured file |
| EntryProperties.StartThenChildExit | src/playlist/PlaylistEntryMedia.cpp:156-182 | after a start, the child's exit empties the slot, adds one completion-hook call, and the publishes are the name then the empty name |
| EntryProperties.StaleExitIgnoredAfterReplacement | src/playlist/PlaylistEntryMedia.cpp:162-166 | after a replacement, the old child's exit is rejected and leaves the new handle in place |
| EntryProperties.ReplacementClosesFirst | src/playlist/PlaylistEntryMedia.cpp:201-206 | reopening with a live handle logs its stop and sync-stop before the new sync-start and backend start |
| EntryProperties.FollowerChoice | src/playlist/PlaylistEntryMedia.cpp:222-242 | a legacy follower given `stem.mp3` picks mpg123 and resolves `stem.mp4` |
| EntryProperties.FollowerKeepsAudioBackend | src/playlist/PlaylistEntryMedia.cpp:227-241 | the follower's handle is mpg123 on `stem.mp4`, whose own extension no legacy backend would be chosen for |
| EntryProperties.NoExtensionLocksOut | src/playlist/PlaylistEntryMedia.cpp:213-218 | a name without `.` fails with the mutex held; later Stop, Process, StartPlaying and child-exit handling all block |
| EntryProperties.UnplayableLockOutDependsOnBranch | src/playlist/PlaylistEntryMedia.cpp:252-262 | an unplayable extension locks the entry out exactly when ForceSDL is on and legacy outputs are off |
| EntryProperties.FailedStartLeavesNothing | src/playlist/PlaylistEntryMedia.cpp:267-272 | a failed Start() leaves an empty slot, a free mutex, answer 0 and no publish |
| EntryProperties.CannotPlayFinishesOnce | src/playlist/PlaylistEntryMedia.cpp:97-101 | when not playable, exactly one completion-hook call and no backend start |
| EntryProperties.CloseIsIdempotent | src/playlist/PlaylistEntryMedia.cpp:290-296 | a second close answers 0 and changes nothing |
| EntryProperties.StopWhenIdle | src/playlist/PlaylistEntryMedia.cpp:141-151 | Stop with an empty slot only sets IDLE and publishes the empty name |
| EntryProperties.ExitLeavesNoHandle | src/playlist/PlaylistEntryMedia.cpp:160-172 | a matched exit leaves the mutex free and the slot empty, so any later exit fails HandleSigChild's precondition: the code would dereference a null handle at line 162 |
| EntryProperties.InitThenGetConfig | src/playlist/PlaylistEntryMedia.cpp:85 | after Init the shared status is untouched, so GetConfig reports the configured name and every shared status field |
| EntryProperties.ExitStatusIsBackends | src/playlist/PlaylistEntryMedia.cpp:168-174 | a child exit leaves the status exactly as the backend's Close() left it, IDLE or not; Stop always ends with IDLE |
| EntryProperties.PollKeepsExitMatching | src/playlist/PlaylistEntryMedia.cpp:126-131 | a poll changes neither the stop, sync-stop and publish events a later Stop adds nor which pid an exit must carry to be accepted |

## Left out

- Threads and signals: `pthread_mutex_*` and the SIGCHLD blocking are not modelled. Every operation is atomic and runs to completion. The slot mutex survives only as the `lockHeld` flag and as the `Blocked` outcome.
- The second mutex `mediaOutputLock` (line 253) is not modelled. Unlocking it is not the lock the code holds. The double unlock at line 206 after a close is modelled as leaving the slot mutex free.
- Backend classes: the mpg123, ogg123, SDL and omxplayer outputs are not part of this model. Start() is an oracle input (`StartReport`). Stop, Close and Process are log entries. Process's effect on the status is an oracle input.
- CloseMediaOutput: models only the IDLE reset of the shared status. Changes made by the backend's Stop() or destructor are not modelled, because those classes are not part of this model.
- Clearing `m_childPID` in HandleSigChild is not modelled, because the handle is deleted right after.
- MQTT, multi-sync packets and plugin callbacks become log events. Whether the MQTT client object exists is a flag. Publish delivery is not modelled.
- `PlaylistEntryBase`, `ParseMedia`, `getSettingInt` and `getFPPmode` are external. Their answers are parameters. `CanPlay()` is a boolean input. `FinishPlay()` is a log event.
- JSON: the configuration is a map of already-converted strings, so `asString()` conversions and throws are not modelled. GetConfig's base record is a map of scalars.
- `mediaSeconds` is a float. It is kept as a copied `real` with no arithmetic.
- Logging (`LogDebug`, `LogErr`) and `Dump` are left out. `Dump` only logs.
- The destructor is left out. It only destroys the mutex.
- `m_mediaOutputStatus`, the entry's private copy of the status, is left out. GetConfig writes it and reads it back at once, so it is folded into GetConfig's result.
