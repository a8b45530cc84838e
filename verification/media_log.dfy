/** The externally visible effects of a media entry, kept as one ordered log:
    status publishes, cross-node sync packets, calls into the backend and
    into the playlist's lifecycle hooks. */
module MediaLog {
  import opened BackendSelection

  datatype Event =
    | Published(payload: string)            // publish on "playlist/media/status"
    | SyncStartSent(name: string)           // media sync-start packet
    | SyncStopSent(name: string)            // media sync-stop packet
    | BackendStarted(kind: BackendKind, path: string)
    | BackendStopped(pid: int)              // the handle's Stop()
    | BackendClosed(pid: int)               // the handle's Close()
    | BackendPolled                         // the handle's Process()
    | FinishPlayed                          // the lifecycle-completion hook
    | MediaParsed(name: string)             // media details lookup
    | MediaCallback                         // plugin media notification
    | BaseStarted                           // the base entry's StartPlaying

  predicate IsPublish(ev: Event) { ev.Published? }

  predicate IsSync(ev: Event) { ev.SyncStartSent? || ev.SyncStopSent? }

  predicate IsFinish(ev: Event) { ev.FinishPlayed? }

  predicate IsBackendStart(ev: Event) { ev.BackendStarted? }

  /** The events of `log` that satisfy `keep`, in their original order. */
  function Filter(log: seq<Event>, keep: Event -> bool): (r: seq<Event>)
    ensures |r| <= |log|
    ensures forall ev :: ev in r ==> ev in log && keep(ev)
  {
    if |log| == 0 then []
    else (if keep(log[0]) then [log[0]] else []) + Filter(log[1..], keep)
  }

  /** Filtering distributes over appending: a later step cannot change what
      an earlier step is seen to have done. */
  lemma {:induction false} FilterAppend(a: seq<Event>, b: seq<Event>, keep: Event -> bool)
    ensures Filter(a + b, keep) == Filter(a, keep) + Filter(b, keep)
    decreases |a|
  {
    if |a| == 0 {
      assert a + b == b;
    } else {
      assert (a + b)[0] == a[0];
      assert (a + b)[1..] == a[1..] + b;
      FilterAppend(a[1..], b, keep);
    }
  }

  /** A one-event log is kept or dropped whole. */
  lemma FilterSingleton(ev: Event, keep: Event -> bool)
    ensures Filter([ev], keep) == if keep(ev) then [ev] else []
  {
  }

  /** Filtering a log with no matching event leaves nothing. */
  lemma {:induction false} FilterNone(log: seq<Event>, keep: Event -> bool)
    requires forall i :: 0 <= i < |log| ==> !keep(log[i])
    ensures Filter(log, keep) == []
    decreases |log|
  {
    if |log| > 0 {
      FilterNone(log[1..], keep);
    }
  }

  /** Appending stretches without matching events around one matching
      event adds exactly that event to what the filter sees. */
  lemma {:induction false} FilterAddsOne(base: seq<Event>, a: seq<Event>, x: Event, c: seq<Event>, keep: Event -> bool)
    requires forall i :: 0 <= i < |a| ==> !keep(a[i])
    requires forall i :: 0 <= i < |c| ==> !keep(c[i])
    requires keep(x)
    ensures Filter(base + a + [x] + c, keep) == Filter(base, keep) + [x]
  {
    FilterNone(a, keep);
    FilterNone(c, keep);
    FilterSingleton(x, keep);
    FilterAppend(base, a, keep);
    FilterAppend(base + a, [x], keep);
    FilterAppend(base + a + [x], c, keep);
  }

  /** The same for two matching events, which the filter sees in order. */
  lemma {:induction false} FilterAddsTwo(base: seq<Event>, a: seq<Event>, x: Event, b: seq<Event>, y: Event, c: seq<Event>, keep: Event -> bool)
    requires forall i :: 0 <= i < |a| ==> !keep(a[i])
    requires forall i :: 0 <= i < |b| ==> !keep(b[i])
    requires forall i :: 0 <= i < |c| ==> !keep(c[i])
    requires keep(x) && keep(y)
    ensures Filter(base + a + [x] + b + [y] + c, keep) == Filter(base, keep) + [x, y]
  {
    FilterAddsOne(base, a, x, b, keep);
    FilterAddsOne(base + a + [x] + b, [], y, c, keep);
    assert base + a + [x] + b + [] == base + a + [x] + b;
  }
}
