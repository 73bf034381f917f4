/** Runs of the live shoplifting alert: the events its callbacks react to,
    one step per event, runs over event sequences, and the properties the
    component promises across many steps: the held alert is never queued,
    the queue is first-in first-out, a user stop is only lifted by a new
    alert, no alert id is shown twice, and a reload suppresses alerts for ten
    seconds. */
module AlertRuns {
  import opened Common
  import opened AlertFilter
  import opened AlertPresenter

  /** Everything that can happen to the component. `now` is the time at which
      the callback runs. */
  datatype Event =
    | PollTick(hasToken: bool, stored: StoredIds, reply: PollReply, now: int)
    | DocumentClick(hasToken: bool, stored: StoredIds, reply: PollReply, now: int)
    | QueueEffect(now: int)                 // the queue-drain effect re-runs
    | WatchdogTick(now: int)
    | CloseButton(now: int)
    | EscapeKey(now: int)
    | ViewButton(action: ViewAction, now: int)
    | PopState                              // route change
    | TimeoutFires(index: nat, now: int)
    | CleanupTick                           // the one-minute eviction sweep
    | HeartbeatTick(now: int)

  /** One event. The close and view buttons exist only while the alert is
      rendered; the Escape handler checks `isVisible` itself. */
  function Step(s: State, e: Event): (r: State)
    requires Inv(s)
    ensures Inv(r)
  {
    match e
    case PollTick(tok, st, reply, now) => Poll(s, tok, st, reply, now)
    case DocumentClick(tok, st, reply, now) => FirstClick(s, tok, st, reply, now)
    case QueueEffect(now) => DrainQueue(s, now)
    case WatchdogTick(now) => Watchdog(s, now)
    case CloseButton(now) => if Rendered(s) then DismissAlert(s, now) else s
    case EscapeKey(now) => if s.isVisible then DismissAlert(s, now) else s
    case ViewButton(_, now) => if Rendered(s) then ViewAlert(s, now) else s
    case PopState => RouteChange(s)
    case TimeoutFires(i, now) => FireTimer(s, i, now)
    case CleanupTick => EvictionSweep(s)
    case HeartbeatTick(now) => Heartbeat(s, now)
  }

  /** The events one after another. */
  function Run(s: State, es: seq<Event>): (r: State)
    requires Inv(s)
    ensures Inv(r)
    decreases |es|
  {
    if es == [] then s else Run(Step(s, es[0]), es[1..])
  }

  /** The id of the alert that a step brings on screen, if any: the step ends
      with an alert rendered that was not rendered before it. */
  function NewlyShown(s: State, r: State): Option<AlertId> {
    if Rendered(r) && (!s.isVisible || s.alertData != r.alertData) then Some(r.alertData.value.id)
    else None
  }

  /** The ids brought on screen along a run, in order. */
  function ShownLog(s: State, es: seq<Event>): seq<AlertId>
    requires Inv(s)
    decreases |es|
  {
    if es == [] then []
    else
      var r := Step(s, es[0]);
      var shown := NewlyShown(s, r);
      (if shown.Some? then [shown.value] else []) + ShownLog(r, es[1..])
  }

  // ---------------------------------------------------------------------------
  // Queue order and the user stop
  // ---------------------------------------------------------------------------

  /** Every step leaves the queue alone, appends one alert at its end, or
      moves its head on screen: arrival order is kept. */
  lemma QueueIsFifo(s: State, e: Event)
    requires Inv(s)
    ensures var r := Step(s, e);
            || r.queue == s.queue
            || (|r.queue| == |s.queue| + 1 && r.queue[..|s.queue|] == s.queue)
            || (|s.queue| > 0 && r.queue == s.queue[1..] && r.alertData == Some(s.queue[0]))
  {
    var r := Step(s, e);
    match e
    case PollTick(tok, st, reply, now) => PollAdmitsOnlyNovel(s, tok, st, reply, now);
    case DocumentClick(tok, st, reply, now) =>
      if s.awaitingFirstClick {
        PollAdmitsOnlyNovel(s.(isAppJustLoaded := false, awaitingFirstClick := false), tok, st, reply, now);
      }
    case QueueEffect(now) =>
    case WatchdogTick(now) =>
    case CloseButton(now) =>
    case EscapeKey(now) =>
    case ViewButton(_, now) =>
    case PopState =>
    case TimeoutFires(i, now) =>
    case CleanupTick =>
    case HeartbeatTick(now) =>
  }

  /** While the user stop is set, no step starts the sound again except one
      that brings a new alert on screen (which clears the stop, as the source
      does for every new alert). */
  lemma UserStopOnlyYieldsToNewAlert(s: State, e: Event)
    requires Inv(s) && s.userStoppedSound
    ensures var r := Step(s, e); r.playing ==> NewlyShown(s, r).Some?
  {
    match e
    case PollTick(tok, st, reply, now) => PollAdmitsOnlyNovel(s, tok, st, reply, now);
    case DocumentClick(tok, st, reply, now) =>
      if s.awaitingFirstClick {
        PollAdmitsOnlyNovel(s.(isAppJustLoaded := false, awaitingFirstClick := false), tok, st, reply, now);
      }
    case QueueEffect(now) =>
    case WatchdogTick(now) =>
    case CloseButton(now) =>
    case EscapeKey(now) =>
    case ViewButton(_, now) =>
    case PopState =>
    case TimeoutFires(i, now) =>
    case CleanupTick =>
    case HeartbeatTick(now) =>
  }

  // ---------------------------------------------------------------------------
  // No id shown twice
  // ---------------------------------------------------------------------------

  /** `id` was not processed before the step and is afterwards. */
  predicate NewlyProcessed(s: State, r: State, id: AlertId) {
    id !in s.processed && id in r.processed
  }

  /** What a poll that fetched `delivered` (if anything) may do: keep every
      processed id, and either leave the queue and the screen alone or admit
      the delivered alert, freshly processed, at the end of the queue or on
      screen; the sound starts only with an alert newly on screen. */
  predicate AdmitsOnlyNovel(s: State, r: State, delivered: Option<Alert>) {
    && (forall x :: x in s.processed ==> x in r.processed)
    && (r.queue == s.queue
        || (delivered.Some? && r.queue == s.queue + [delivered.value] && NewlyProcessed(s, r, delivered.value.id)))
    && (NewlyShown(s, r).None?
        || (delivered.Some? && r.alertData == delivered && r.queue == s.queue && NewlyProcessed(s, r, delivered.value.id)))
    && (r.playing && !s.playing ==> NewlyShown(s, r).Some?)
  }

  /** What a poll can do to the queue and the screen: nothing, or admit the
      delivered alert, which was not in the processed collection before and
      is in it afterwards, either at the end of the queue or on screen. */
  lemma PollAdmitsOnlyNovel(s: State, tok: bool, st: StoredIds, reply: PollReply, now: int)
    requires Inv(s)
    ensures AdmitsOnlyNovel(s, Poll(s, tok, st, reply, now),
                            if Delivers(s, tok, reply) then reply.latest else None)
  {
    if Delivers(s, tok, reply) && !s.isAppJustLoaded && reply.cameraStatus == Some("active")
       && ShouldProcess(FilterOf(s), st, reply.latest.value.id, now).accept {
      AcceptedPollAdmitsNovel(s, tok, st, reply, now);
    } else {
      var r := Poll(s, tok, st, reply, now);
      var delivered := if Delivers(s, tok, reply) then reply.latest else None;
      if Delivers(s, tok, reply) && !s.isAppJustLoaded && reply.cameraStatus == Some("active") {
        var v := ShouldProcess(FilterOf(s), st, reply.latest.value.id, now);
        assert r == s.(processed := v.processed);
      }
      NothingShownAdmitsNothing(s, r, delivered);
    }
  }

  /** A poll whose alert the filter accepts admits that alert. */
  lemma AcceptedPollAdmitsNovel(s: State, tok: bool, st: StoredIds, reply: PollReply, now: int)
    requires Inv(s) && Delivers(s, tok, reply) && !s.isAppJustLoaded && reply.cameraStatus == Some("active")
    requires ShouldProcess(FilterOf(s), st, reply.latest.value.id, now).accept
    ensures AdmitsOnlyNovel(s, Poll(s, tok, st, reply, now), reply.latest)
  {
    AcceptedAlertIsNovel(s, reply.latest.value, now);
  }

  /** The reject direction: a delivered alert that was already seen (in
      memory, as the last alert, or persisted) or that arrives inside the
      30-second throttle is neither shown, queued nor sounded, and outside the
      load window the last alert's id and time stay as they were. */
  lemma RejectedPollChangesNothingShown(s: State, tok: bool, st: StoredIds, reply: PollReply, now: int)
    requires Inv(s) && Delivers(s, tok, reply)
    requires Seen(FilterOf(s), st, reply.latest.value.id) || Throttled(s.lastAlertTime, now)
    ensures var r := Poll(s, tok, st, reply, now);
            && r.queue == s.queue && r.alertData == s.alertData && r.isVisible == s.isVisible
            && r.playing == s.playing && r.timers == s.timers && r.userStoppedSound == s.userStoppedSound
            && (!s.isAppJustLoaded ==> r.lastAlertId == s.lastAlertId && r.lastAlertTime == s.lastAlertTime)
  {
  }

  /** A step that keeps every processed id and leaves the queue, the screen
      and the sound alone admits nothing. */
  lemma NothingShownAdmitsNothing(s: State, r: State, delivered: Option<Alert>)
    requires forall x :: x in s.processed ==> x in r.processed
    requires r.queue == s.queue && r.alertData == s.alertData && r.isVisible == s.isVisible
    requires r.playing == s.playing
    ensures AdmitsOnlyNovel(s, r, delivered)
  {
  }

  /** An accepted alert that was not yet processed is shown or queued and
      recorded as processed. */
  lemma AcceptedAlertIsNovel(s: State, a: Alert, now: int)
    requires Inv(s) && !s.isAppJustLoaded && a.id !in s.processed
    ensures var shown := ProcessNewAlert(s, a, now);
            var r := shown.(lastAlertId := Some(a.id), lastAlertTime := Some(now),
                            processed := Remember(shown.processed, a.id));
            AdmitsOnlyNovel(s, r, Some(a))
  {
  }

  predicate DedupInv(s: State, log: seq<AlertId>) {
    && Inv(s)
    && Distinct(log)
    && (forall i :: 0 <= i < |log| ==> log[i] in s.processed)
    && (forall i :: 0 <= i < |s.queue| ==> s.queue[i].id in s.processed && s.queue[i].id !in log)
  }

  /** The events contain no eviction sweep. */
  predicate NoCleanup(es: seq<Event>) {
    forall i :: 0 <= i < |es| ==> !es[i].CleanupTick?
  }

  /** A poll keeps the dedup bookkeeping. */
  lemma PollKeepsDedup(s: State, log: seq<AlertId>, tok: bool, st: StoredIds, reply: PollReply, now: int)
    requires DedupInv(s, log)
    ensures var r := Poll(s, tok, st, reply, now);
            var shown := NewlyShown(s, r);
            DedupInv(r, log + (if shown.Some? then [shown.value] else []))
  {
    var r := Poll(s, tok, st, reply, now);
    PollAdmitsOnlyNovel(s, tok, st, reply, now);
    var shown := NewlyShown(s, r);
    if shown.Some? {
      ShownNovelKeepsDedup(s, log, r, shown.value);
    } else {
      QueuedNovelKeepsDedup(s, log, r);
    }
  }

  /** A step that shows a fresh, now processed alert and leaves the queue
      alone keeps the bookkeeping once that alert is logged. */
  lemma ShownNovelKeepsDedup(s: State, log: seq<AlertId>, r: State, id: AlertId)
    requires DedupInv(s, log) && Inv(r)
    requires id !in s.processed && id in r.processed && r.queue == s.queue
    requires forall x :: x in s.processed ==> x in r.processed
    ensures DedupInv(r, log + [id])
  {
    var log' := log + [id];
    forall i | 0 <= i < |log'| ensures log'[i] in r.processed {
      if i < |log| { assert log'[i] == log[i] && log[i] in s.processed; }
    }
    forall i | 0 <= i < |r.queue| ensures r.queue[i].id in r.processed && r.queue[i].id !in log' {
      assert r.queue[i] == s.queue[i];
    }
  }

  /** A step that shows nothing and at most queues a fresh, now processed
      alert keeps the bookkeeping with an unchanged log. */
  lemma QueuedNovelKeepsDedup(s: State, log: seq<AlertId>, r: State)
    requires DedupInv(s, log) && Inv(r)
    requires forall x :: x in s.processed ==> x in r.processed
    requires r.queue == s.queue
             || (|r.queue| == |s.queue| + 1 && r.queue[..|s.queue|] == s.queue
                 && r.queue[|s.queue|].id !in s.processed && r.queue[|s.queue|].id in r.processed)
    ensures DedupInv(r, log)
  {
    forall i | 0 <= i < |log| ensures log[i] in r.processed {
      var x := log[i];
      assert x in s.processed;
      assert x in r.processed;
    }
    forall i | 0 <= i < |r.queue| ensures r.queue[i].id in r.processed && r.queue[i].id !in log {
      if i < |s.queue| {
        assert r.queue[i] == r.queue[..|s.queue|][i];
      }
    }
  }

  /** A step that keeps the queue and the processed ids and brings nothing
      new on screen keeps the dedup bookkeeping with an unchanged log. */
  lemma QuietStepKeepsDedup(s: State, log: seq<AlertId>, r: State)
    requires DedupInv(s, log) && Inv(r)
    requires r.queue == s.queue && r.processed == s.processed
    requires !Rendered(r) || (s.isVisible && r.alertData == s.alertData)
    ensures NewlyShown(s, r).None? && DedupInv(r, log)
  {
  }

  /** Draining the queue shows its head, which was queued and so not yet in
      the log, and leaves the rest queued. */
  lemma DrainKeepsDedup(s: State, log: seq<AlertId>, now: int)
    requires DedupInv(s, log)
    ensures var r := DrainQueue(s, now);
            var shown := NewlyShown(s, r);
            DedupInv(r, log + (if shown.Some? then [shown.value] else []))
  {
    var r := DrainQueue(s, now);
    if |s.queue| > 0 && !s.isVisible && !s.isDismissing {
      var head := s.queue[0];
      assert NewlyShown(s, r) == Some(head.id);
      forall i | 0 <= i < |r.queue| ensures r.queue[i].id != head.id && r.queue[i].id !in log {
        assert r.queue[i] == s.queue[i + 1];
      }
    } else {
      QuietStepKeepsDedup(s, log, r);
    }
  }

  /** The first document click polls with the load window closed. */
  lemma FirstClickKeepsDedup(s: State, log: seq<AlertId>, tok: bool, st: StoredIds, reply: PollReply, now: int)
    requires DedupInv(s, log)
    ensures var r := FirstClick(s, tok, st, reply, now);
            var shown := NewlyShown(s, r);
            DedupInv(r, log + (if shown.Some? then [shown.value] else []))
  {
    if s.awaitingFirstClick {
      PollKeepsDedup(s.(isAppJustLoaded := false, awaitingFirstClick := false), log, tok, st, reply, now);
    } else {
      QuietStepKeepsDedup(s, log, s);
    }
  }

  /** Every step other than the eviction sweep keeps the dedup bookkeeping,
      once the id it brings on screen is logged. */
  lemma StepKeepsDedup(s: State, log: seq<AlertId>, e: Event)
    requires DedupInv(s, log) && !e.CleanupTick?
    ensures var r := Step(s, e);
            var shown := NewlyShown(s, r);
            DedupInv(r, log + (if shown.Some? then [shown.value] else []))
  {
    var r := Step(s, e);
    match e
    case PollTick(tok, st, reply, now) => PollKeepsDedup(s, log, tok, st, reply, now);
    case DocumentClick(tok, st, reply, now) => FirstClickKeepsDedup(s, log, tok, st, reply, now);
    case QueueEffect(now) => DrainKeepsDedup(s, log, now);
    case WatchdogTick(now) => QuietStepKeepsDedup(s, log, r);
    case CloseButton(now) => QuietStepKeepsDedup(s, log, r);
    case EscapeKey(now) => QuietStepKeepsDedup(s, log, r);
    case ViewButton(_, now) => QuietStepKeepsDedup(s, log, r);
    case PopState => QuietStepKeepsDedup(s, log, r);
    case TimeoutFires(i, now) => QuietStepKeepsDedup(s, log, r);
    case HeartbeatTick(now) => QuietStepKeepsDedup(s, log, r);
  }

  lemma AppendAssoc<T>(a: seq<T>, b: seq<T>, c: seq<T>)
    ensures (a + b) + c == a + (b + c)
  {
  }

  /** A run without eviction sweeps keeps the dedup bookkeeping. */
  lemma {:induction false} RunKeepsDedup(s: State, log: seq<AlertId>, es: seq<Event>)
    requires DedupInv(s, log) && NoCleanup(es)
    ensures DedupInv(Run(s, es), log + ShownLog(s, es))
    decreases |es|
  {
    if es != [] {
      var r := Step(s, es[0]);
      var shown := NewlyShown(s, r);
      var added := if shown.Some? then [shown.value] else [];
      var log' := log + added;
      StepKeepsDedup(s, log, es[0]);
      assert NoCleanup(es[1..]) by {
        forall i | 0 <= i < |es[1..]| ensures !es[1..][i].CleanupTick? { assert es[1..][i] == es[i + 1]; }
      }
      RunKeepsDedup(r, log', es[1..]);
      assert Run(s, es) == Run(r, es[1..]);
      assert ShownLog(s, es) == added + ShownLog(r, es[1..]);
      AppendAssoc(log, added, ShownLog(r, es[1..]));
    }
  }

  /** From mounting onwards, as long as no eviction sweep runs, no alert id
      is brought on screen twice. */
  lemma NoAlertShownTwice(storedHeartbeat: Option<int>, now: int, es: seq<Event>)
    requires NoCleanup(es)
    ensures Distinct(ShownLog(Mount(storedHeartbeat, now), es))
  {
    RunKeepsDedup(Mount(storedHeartbeat, now), [], es);
    assert [] + ShownLog(Mount(storedHeartbeat, now), es) == ShownLog(Mount(storedHeartbeat, now), es);
  }

  /** The same promise for the mount as the source writes it: dedup does not
      depend on how long the load window lasts. */
  lemma NoAlertShownTwiceAsWritten(storedHeartbeat: Option<int>, now: int, es: seq<Event>)
    requires NoCleanup(es)
    ensures Distinct(ShownLog(MountAsWritten(storedHeartbeat, now), es))
  {
    var s := MountAsWritten(storedHeartbeat, now);
    RunKeepsDedup(s, [], es);
    assert [] + ShownLog(s, es) == ShownLog(s, es);
  }

  // ---------------------------------------------------------------------------
  // Reload suppression
  // ---------------------------------------------------------------------------

  /** The event happens before time `t` (route changes and sweeps carry no
      time and are allowed). */
  predicate Before(e: Event, t: int) {
    match e
    case PopState => true
    case CleanupTick => true
    case PollTick(_, _, _, now) => now < t
    case DocumentClick(_, _, _, now) => now < t
    case QueueEffect(now) => now < t
    case WatchdogTick(now) => now < t
    case CloseButton(now) => now < t
    case EscapeKey(now) => now < t
    case ViewButton(_, now) => now < t
    case TimeoutFires(_, now) => now < t
    case HeartbeatTick(now) => now < t
  }

  /** Still inside the suppression window that ends no earlier than `until`:
      nothing on screen, queued or sounding, and every pending timer is a
      window-ending timer due at `until` or later. */
  predicate Quiet(s: State, until: int) {
    && Inv(s) && s.isAppJustLoaded && !s.isVisible && s.alertData.None? && s.queue == [] && !s.playing
    && (forall i :: 0 <= i < |s.timers| ==> s.timers[i].kind == EndLoadWindow && s.timers[i].due >= until)
  }

  /** A step before `until` that is not a click keeps the component quiet. */
  lemma StepKeepsQuiet(s: State, until: int, e: Event)
    requires Quiet(s, until) && !e.DocumentClick? && Before(e, until)
    ensures Quiet(Step(s, e), until) && NewlyShown(s, Step(s, e)).None?
  {
    match e
    case PollTick(tok, st, reply, now) =>
    case QueueEffect(now) =>
    case WatchdogTick(now) =>
    case CloseButton(now) =>
    case EscapeKey(now) =>
    case ViewButton(_, now) =>
    case PopState =>
    case TimeoutFires(i, now) =>
      if i < |s.timers| { assert s.timers[i].due >= until; }
    case CleanupTick =>
    case HeartbeatTick(now) =>
  }

  /** A quiet component stays quiet and shows nothing over a run of events
      before `until` that contains no click. */
  lemma {:induction false} RunKeepsQuiet(s: State, until: int, es: seq<Event>)
    requires Quiet(s, until)
    requires forall i :: 0 <= i < |es| ==> !es[i].DocumentClick? && Before(es[i], until)
    ensures Quiet(Run(s, es), until) && ShownLog(s, es) == []
    decreases |es|
  {
    if es != [] {
      StepKeepsQuiet(s, until, es[0]);
      assert forall i :: 0 <= i < |es[1..]| ==> es[1..][i] == es[i + 1];
      RunKeepsQuiet(Step(s, es[0]), until, es[1..]);
    }
  }

  /** After a detected reload, and without a user click, no alert is shown,
      queued or sounded during the first ten seconds, whatever the backend
      returns. */
  lemma ReloadSuppressesTenSeconds(storedHeartbeat: Option<int>, t0: int, es: seq<Event>)
    requires IsReload(storedHeartbeat, t0)
    requires forall i :: 0 <= i < |es| ==> !es[i].DocumentClick? && Before(es[i], t0 + ReloadWindowMs)
    ensures var r := Run(Mount(storedHeartbeat, t0), es);
            r.isAppJustLoaded && !r.isVisible && r.queue == [] && !r.playing
    ensures ShownLog(Mount(storedHeartbeat, t0), es) == []
  {
    RunKeepsQuiet(Mount(storedHeartbeat, t0), t0 + ReloadWindowMs, es);
  }

  /** The source as written does not keep that promise: its unconditional
      5-second timer ends the window of a reload too, so an alert polled six
      seconds after a reload is shown. */
  lemma ReloadWindowEndsAtFiveSecondsAsWritten(t0: int)
    ensures var s0 := MountAsWritten(Some(t0 - 1000), t0);
            var s1 := FireTimer(s0, 0, t0 + LoadWindowMs);
            var a := Alert(1, "C1", "Aisle 3", None, t0);
            var s2 := Poll(s1, true, Missing, Reply("success", Some(a), Some("active")), t0 + 6000);
            && IsReload(Some(t0 - 1000), t0)
            && t0 + 6000 < t0 + ReloadWindowMs
            && Rendered(s2) && s2.alertData == Some(a) && s2.playing
  {
    var s0 := MountAsWritten(Some(t0 - 1000), t0);
    assert s0.timers[0] == Timer(t0 + LoadWindowMs, EndLoadWindow);
    var s1 := FireTimer(s0, 0, t0 + LoadWindowMs);
    assert !s1.isAppJustLoaded && !s1.isVisible && s1.queue == [] && s1.processed == [];
  }

  // ---------------------------------------------------------------------------
  // Dismissal phases and the safety stop
  // ---------------------------------------------------------------------------

  /** Dismissing a rendered alert silences it at once; 300 ms later it is
      hidden and no longer dismissing, with the user stop still set; 1000 ms
      after that the user stop is lifted, and the sound is still off. */
  lemma DismissPhases(s: State, now: int)
    requires Inv(s) && Rendered(s)
    ensures var d := DismissAlert(s, now);
            && d.isVisible && d.isDismissing && d.userStoppedSound && !d.playing
            && |d.timers| > 0 && d.timers[|d.timers| - 1] == Timer(now + DismissExitMs, HideAfterDismiss)
            && var h := FireTimer(d, |d.timers| - 1, now + DismissExitMs);
               && !h.isVisible && !h.isDismissing && h.userStoppedSound && !h.playing
               && |h.timers| > 0 && h.timers[|h.timers| - 1] == Timer(now + DismissExitMs + UserStopCooldownMs, ClearUserStop)
               && var c := FireTimer(h, |h.timers| - 1, now + DismissExitMs + UserStopCooldownMs);
                  !c.userStoppedSound && !c.playing && !c.isVisible
  {
    var d := DismissAlert(s, now);
    var t1 := now + DismissExitMs;
    var h := FireTimer(d, |d.timers| - 1, t1);
    assert h == TimerAction(d.(timers := RemoveAt(d.timers, |d.timers| - 1)), HideAfterDismiss, t1);
    var t2 := t1 + UserStopCooldownMs;
    var c := FireTimer(h, |h.timers| - 1, t2);
    assert c == TimerAction(h.(timers := RemoveAt(h.timers, |h.timers| - 1)), ClearUserStop, t2);
  }

  /** The 30-second safety stop does not end the alarm of an alert that is
      still on screen: the next watchdog tick starts it again, since the stop
      leaves the user-stop flag clear. */
  lemma SafetyStopIsUndoneByWatchdog(s: State, i: nat, now: int, later: int)
    requires Inv(s) && Rendered(s) && s.playing
    requires i < |s.timers| && s.timers[i] == Timer(now, SafetyStop)
    ensures !FireTimer(s, i, now).playing
    ensures Watchdog(FireTimer(s, i, now), later).playing
  {
  }

  // ---------------------------------------------------------------------------
  // One poll
  // ---------------------------------------------------------------------------

  /** A novel, unthrottled alert from an active camera, polled while nothing
      is visible, is shown with its sound, recorded as processed and becomes
      the last alert. */
  lemma NovelAlertIsShown(s: State, st: StoredIds, a: Alert, now: int)
    requires Inv(s) && !s.isPollingPaused && !s.isAppJustLoaded && !s.isVisible
    requires !Seen(FilterOf(s), st, a.id) && !Throttled(s.lastAlertTime, now)
    requires !InQueue(s.queue, a.id) && !Holds(s, a.id)
    ensures var r := Poll(s, true, st, Reply("success", Some(a), Some("active")), now);
            && Rendered(r) && r.alertData == Some(a) && r.playing && r.queue == s.queue
            && a.id in r.processed && r.lastAlertId == Some(a.id) && r.lastAlertTime == Some(now)
  {
  }

  /** An alert polled while another is on screen goes to the end of the
      queue and is not shown. */
  lemma SecondAlertIsQueued(s: State, st: StoredIds, a: Alert, now: int)
    requires Inv(s) && !s.isPollingPaused && !s.isAppJustLoaded && Rendered(s)
    requires !Seen(FilterOf(s), st, a.id) && !Throttled(s.lastAlertTime, now)
    requires !InQueue(s.queue, a.id) && !Holds(s, a.id)
    ensures var r := Poll(s, true, st, Reply("success", Some(a), Some("active")), now);
            && r.queue == s.queue + [a] && r.alertData == s.alertData && r.isVisible
  {
  }
}
