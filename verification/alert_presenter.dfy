/** The live shoplifting alert (src/components/ShopliftingAlert.jsx) as a
    state machine. The module-level globals of the source (`isSoundPlaying`,
    `userStoppedSound`, `isAppJustLoaded`, `soundTimeout`) and the component's
    React state become fields of one immutable record; every callback becomes
    a pure transition that receives the current time `now` in milliseconds.
    Pending `setTimeout` callbacks are kept as a list of timers, each with the
    time it becomes due; the sound itself is an abstract playing flag. */
module AlertPresenter {
  import opened Common
  import opened AlertFilter

  /** Length of the slide-out animation before the alert is hidden. */
  const DismissExitMs := 300
  /** Delay after hiding before the user-stop flag is cleared again. */
  const UserStopCooldownMs := 1000
  /** Suppression window after a normal load. */
  const LoadWindowMs := 5000
  /** Suppression window after a detected reload. */
  const ReloadWindowMs := 10000
  /** A stored heartbeat younger than this marks the load as a reload. */
  const ReloadHeartbeatMs := 3000
  /** Safety stop of a sound that was never dismissed. */
  const SafetyStopMs := 30000
  /** Polling pause after "View Camera" / "View Evidence". */
  const PollPauseMs := 5000

  /** What a pending timeout does when it fires. */
  datatype TimerKind =
    | HideAfterDismiss   // end of the dismiss animation
    | ClearUserStop      // end of the user-stop cooldown
    | EndLoadWindow      // end of the load or reload suppression window
    | SafetyStop         // the 30-second `soundTimeout`
    | ResumePolling      // end of the polling pause

  datatype Timer = Timer(due: int, kind: TimerKind)

  datatype State = State(
    processed: seq<AlertId>,      // the in-memory `Set`, in insertion order
    lastAlertId: Option<AlertId>,
    lastAlertTime: Option<int>,
    queue: seq<Alert>,            // `alertQueue`, oldest first
    alertData: Option<Alert>,
    isVisible: bool,
    isDismissing: bool,
    playing: bool,                // `isSoundPlaying` / `activeAudio`
    userStoppedSound: bool,
    isAppJustLoaded: bool,
    awaitingFirstClick: bool,     // the one-shot document click listener
    isPollingPaused: bool,
    timers: seq<Timer>,           // pending timeouts
    heartbeat: int)               // stored `lastAlertSessionTime`

  /** Some queued alert carries this id (`alertQueue.some(a => a.id === id)`). */
  predicate InQueue(q: seq<Alert>, id: AlertId) {
    exists i :: 0 <= i < |q| && q[i].id == id
  }

  /** No two queued alerts share an id. */
  predicate DistinctIds(q: seq<Alert>) {
    forall i, j :: 0 <= i < j < |q| ==> q[i].id != q[j].id
  }

  /** The alert that `alertData` holds has this id. */
  predicate Holds(s: State, id: AlertId) {
    s.alertData.Some? && s.alertData.value.id == id
  }

  /** The alert is on screen: the component renders it. */
  predicate Rendered(s: State) {
    s.isVisible && s.alertData.Some?
  }

  /** The state invariant every transition keeps: the processed collection is
      a set, the queue has no repeated id, the held alert is never also
      queued, a visible alert has data, and a user stop silences the sound. */
  predicate Inv(s: State) {
    && Distinct(s.processed)
    && DistinctIds(s.queue)
    && (s.alertData.Some? ==> !InQueue(s.queue, s.alertData.value.id))
    && (s.isVisible ==> s.alertData.Some?)
    && (s.userStoppedSound ==> !s.playing)
  }

  /** The filter's view of the state. */
  function FilterOf(s: State): FilterState {
    FilterState(s.processed, s.lastAlertId, s.lastAlertTime)
  }

  // ---------------------------------------------------------------------------
  // Sound
  // ---------------------------------------------------------------------------

  /** The pending timers with the safety stop cancelled. */
  function CancelSafetyStop(ts: seq<Timer>): (r: seq<Timer>)
    ensures forall t :: t in r <==> t in ts && t.kind != SafetyStop
  {
    Filter(ts, (t: Timer) => t.kind != SafetyStop)
  }

  /** `forceStopAllAudio`: stops the sound and cancels the pending safety
      stop; nothing else changes. */
  function ForceStop(s: State): (r: State)
    ensures !r.playing
    ensures forall t :: t in r.timers <==> t in s.timers && t.kind != SafetyStop
    ensures r.(playing := s.playing, timers := s.timers) == s
  {
    s.(playing := false, timers := CancelSafetyStop(s.timers))
  }

  /** `playAlertSound`: always stops first; starts only when the user has not
      stopped the sound, and then arms the 30-second safety stop. */
  function PlayAlertSound(s: State, now: int): (r: State)
    ensures r.playing <==> !s.userStoppedSound
    ensures r.playing ==> Timer(now + SafetyStopMs, SafetyStop) in r.timers
    ensures r.(playing := s.playing, timers := s.timers) == s
  {
    var stopped := ForceStop(s);
    if s.userStoppedSound then stopped
    else stopped.(playing := true, timers := stopped.timers + [Timer(now + SafetyStopMs, SafetyStop)])
  }

  // ---------------------------------------------------------------------------
  // Queue and presentation
  // ---------------------------------------------------------------------------

  /** `processNewAlert`: ignored during the load window or when the alert is
      already queued or held; otherwise shown at once (resetting the user
      stop and starting the sound) when nothing is visible, else appended to
      the end of the queue. */
  function ProcessNewAlert(s: State, a: Alert, now: int): (r: State)
    requires Inv(s)
    ensures Inv(r)
    ensures s.isAppJustLoaded || InQueue(s.queue, a.id) || Holds(s, a.id) ==> r == s
    ensures !s.isAppJustLoaded && !InQueue(s.queue, a.id) && !Holds(s, a.id) && !s.isVisible ==>
              r.isVisible && r.alertData == Some(a) && r.playing && !r.userStoppedSound && r.queue == s.queue
    ensures !s.isAppJustLoaded && !InQueue(s.queue, a.id) && !Holds(s, a.id) && s.isVisible ==>
              r == s.(queue := s.queue + [a])
    ensures r.processed == s.processed && r.lastAlertId == s.lastAlertId && r.lastAlertTime == s.lastAlertTime
  {
    if s.isAppJustLoaded then s
    else if InQueue(s.queue, a.id) || Holds(s, a.id) then s
    else if !s.isVisible then
      PlayAlertSound(s.(alertData := Some(a), isVisible := true, userStoppedSound := false), now)
    else
      var q := s.queue + [a];
      assert forall i :: 0 <= i < |s.queue| ==> q[i] == s.queue[i];
      s.(queue := q)
  }

  /** The queue-drain effect: when something is queued, nothing is visible and
      no dismiss is in flight, the head becomes the visible alert, leaves the
      queue, and its sound starts. */
  function DrainQueue(s: State, now: int): (r: State)
    requires Inv(s)
    ensures Inv(r)
    ensures !(|s.queue| > 0 && !s.isVisible && !s.isDismissing) ==> r == s
    ensures |s.queue| > 0 && !s.isVisible && !s.isDismissing ==>
              && r.alertData == Some(s.queue[0]) && r.isVisible
              && s.queue == [s.queue[0]] + r.queue
              && r.playing && !r.userStoppedSound
    ensures r.processed == s.processed
  {
    if |s.queue| > 0 && !s.isVisible && !s.isDismissing then
      var head := s.queue[0];
      assert forall i :: 0 <= i < |s.queue| - 1 ==> s.queue[1..][i] == s.queue[i + 1];
      PlayAlertSound(s.(alertData := Some(head), isVisible := true, queue := s.queue[1..],
                        userStoppedSound := false), now)
    else s
  }

  /** `dismissAlert`: sets the user stop, stops the sound and starts the
      slide-out; the alert stays visible until the 300 ms timer fires. */
  function DismissAlert(s: State, now: int): (r: State)
    requires Inv(s)
    ensures Inv(r)
    ensures r.userStoppedSound && !r.playing && r.isDismissing
    ensures r.isVisible == s.isVisible && r.alertData == s.alertData && r.queue == s.queue
    ensures Timer(now + DismissExitMs, HideAfterDismiss) in r.timers
    ensures r.processed == s.processed
  {
    var stopped := ForceStop(s.(userStoppedSound := true));
    stopped.(isDismissing := true, timers := stopped.timers + [Timer(now + DismissExitMs, HideAfterDismiss)])
  }

  /** `handleViewCamera` / `handleViewEvidence`: stop the sound, dismiss, and
      pause polling for 5 seconds. The two differ only in where they
      navigate, see `ViewDestination`. */
  function ViewAlert(s: State, now: int): (r: State)
    requires Inv(s)
    ensures Inv(r)
    ensures r.userStoppedSound && !r.playing && r.isDismissing && r.isPollingPaused
    ensures Timer(now + PollPauseMs, ResumePolling) in r.timers
    ensures r.queue == s.queue && r.alertData == s.alertData && r.isVisible == s.isVisible
    ensures r.processed == s.processed
  {
    var d := DismissAlert(ForceStop(s.(userStoppedSound := true)), now);
    d.(isPollingPaused := true, timers := d.timers + [Timer(now + PollPauseMs, ResumePolling)])
  }

  datatype ViewAction = ViewCamera | ViewEvidence

  /** Where the two view buttons navigate. */
  function ViewDestination(a: ViewAction): (path: string)
    ensures a.ViewCamera? <==> path == "/shoplifting-detection"
    ensures a.ViewEvidence? <==> path == "/recent-activity"
  {
    match a
    case ViewCamera => "/shoplifting-detection"
    case ViewEvidence => "/recent-activity"
  }

  /** The `popstate` handler: a visible alert is hidden and cleared at once,
      without the slide-out, and the user stop is set so nothing restarts
      the sound; otherwise nothing happens. */
  function RouteChange(s: State): (r: State)
    requires Inv(s)
    ensures Inv(r)
    ensures !s.isVisible ==> r == s
    ensures s.isVisible ==> !r.isVisible && r.alertData.None? && r.userStoppedSound && !r.playing
    ensures r.queue == s.queue && r.isDismissing == s.isDismissing && r.processed == s.processed
  {
    if s.isVisible then ForceStop(s).(isVisible := false, alertData := None, userStoppedSound := true)
    else s
  }

  /** The 2-second watchdog, which only runs while an alert is rendered:
      restarts a sound that has died unless the user stopped it. */
  function Watchdog(s: State, now: int): (r: State)
    requires Inv(s)
    ensures Inv(r)
    ensures s.userStoppedSound || !Rendered(s) || s.playing ==> r == s
    ensures Rendered(s) && !s.userStoppedSound ==> r.playing
    ensures r.queue == s.queue && r.alertData == s.alertData && r.isVisible == s.isVisible
    ensures r.processed == s.processed
  {
    if Rendered(s) && !s.playing && !s.userStoppedSound then PlayAlertSound(s, now) else s
  }

  // ---------------------------------------------------------------------------
  // Timers
  // ---------------------------------------------------------------------------

  /** The timer list without its `i`-th entry. */
  function RemoveAt(ts: seq<Timer>, i: nat): (r: seq<Timer>)
    requires i < |ts|
    ensures |r| == |ts| - 1
    ensures forall t :: t in r ==> t in ts
    ensures forall j :: 0 <= j < |ts| && j != i ==> ts[j] in r
  {
    assert forall j :: 0 <= j < i ==> ts[j] == (ts[..i] + ts[i + 1..])[j];
    assert forall j :: i < j < |ts| ==> ts[j] == (ts[..i] + ts[i + 1..])[j - 1];
    ts[..i] + ts[i + 1..]
  }

  /** The `i`-th pending timeout fires at `now`, if it exists and is due;
      otherwise nothing happens. A fired timer leaves the list. */
  function FireTimer(s: State, i: nat, now: int): (r: State)
    requires Inv(s)
    ensures Inv(r)
    ensures i >= |s.timers| || s.timers[i].due > now ==> r == s
    ensures i < |s.timers| && s.timers[i].due <= now ==>
              match s.timers[i].kind
              case HideAfterDismiss =>
                !r.isVisible && !r.isDismissing && Timer(now + UserStopCooldownMs, ClearUserStop) in r.timers
              case ClearUserStop => !r.userStoppedSound
              case EndLoadWindow => !r.isAppJustLoaded
              case SafetyStop => s.playing && !s.userStoppedSound ==> !r.playing
              case ResumePolling => !r.isPollingPaused
    ensures r.queue == s.queue && r.alertData == s.alertData && r.processed == s.processed
    ensures r.playing ==> s.playing
    ensures r.isVisible ==> s.isVisible
  {
    if i >= |s.timers| || s.timers[i].due > now then s
    else TimerAction(s.(timers := RemoveAt(s.timers, i)), s.timers[i].kind, now)
  }

  /** What a due timer of kind `k` does once it has left the timer list. */
  function TimerAction(s: State, k: TimerKind, now: int): (r: State)
    requires Inv(s)
    ensures Inv(r)
    ensures match k
            case HideAfterDismiss =>
              !r.isVisible && !r.isDismissing && Timer(now + UserStopCooldownMs, ClearUserStop) in r.timers
            case ClearUserStop => !r.userStoppedSound
            case EndLoadWindow => !r.isAppJustLoaded
            case SafetyStop => s.playing && !s.userStoppedSound ==> !r.playing
            case ResumePolling => !r.isPollingPaused
    ensures r.queue == s.queue && r.alertData == s.alertData && r.processed == s.processed
    ensures r.playing ==> s.playing
    ensures r.isVisible ==> s.isVisible
  {
    match k
    case HideAfterDismiss =>
      s.(isVisible := false, isDismissing := false,
         timers := s.timers + [Timer(now + UserStopCooldownMs, ClearUserStop)])
    case ClearUserStop => s.(userStoppedSound := false)
    case EndLoadWindow => s.(isAppJustLoaded := false)
    case SafetyStop => if s.playing && !s.userStoppedSound then ForceStop(s) else s
    case ResumePolling => s.(isPollingPaused := false)
  }

  // ---------------------------------------------------------------------------
  // Polling
  // ---------------------------------------------------------------------------

  /** What one poll learns: the request failed, or the backend answered with
      a status and maybe a latest alert; `cameraStatus` is the reply of the
      camera-status lookup for that alert's camera, `None` when it failed. */
  datatype PollReply =
    | RequestFailed
    | Reply(status: string, latest: Option<Alert>, cameraStatus: Option<string>)

  /** The poll delivered an alert to the decision flow. */
  predicate Delivers(s: State, hasToken: bool, reply: PollReply) {
    !s.isPollingPaused && hasToken && reply.Reply? && reply.status == "success" && reply.latest.Some?
  }

  /** `checkForAlerts`. Paused, without a token, on a failed request or a
      non-success status nothing happens. During the load window a fetched id
      is only recorded. An alert whose camera is not reported `"active"` (or
      whose lookup fails) is recorded and dropped. Otherwise the novelty
      decision runs, and an accepted alert is handed to `processNewAlert` and
      becomes the last alert, stamped `now`. */
  function Poll(s: State, hasToken: bool, stored: StoredIds, reply: PollReply, now: int): (r: State)
    requires Inv(s)
    ensures Inv(r)
    ensures !Delivers(s, hasToken, reply) ==> r == s
    ensures Delivers(s, hasToken, reply) && (s.isAppJustLoaded || reply.cameraStatus != Some("active")) ==>
              reply.latest.value.id in r.processed && r.queue == s.queue && r.alertData == s.alertData
              && r.isVisible == s.isVisible && r.playing == s.playing
    ensures forall x :: x in s.processed ==> x in r.processed
    ensures |s.processed| <= |r.processed| && r.processed[..|s.processed|] == s.processed
    ensures s.isAppJustLoaded ==>
              && r.queue == s.queue && r.alertData == s.alertData && r.isVisible == s.isVisible
              && r.playing == s.playing && r.timers == s.timers && r.isAppJustLoaded
    ensures Delivers(s, hasToken, reply) && s.isAppJustLoaded ==> r.lastAlertId == Some(reply.latest.value.id)
    ensures Delivers(s, hasToken, reply) && !s.isAppJustLoaded && reply.cameraStatus != Some("active") ==>
              r == s.(processed := r.processed)
    ensures Delivers(s, hasToken, reply) && !s.isAppJustLoaded && reply.cameraStatus == Some("active")
            && !ShouldProcess(FilterOf(s), stored, reply.latest.value.id, now).accept ==>
              r == s.(processed := ShouldProcess(FilterOf(s), stored, reply.latest.value.id, now).processed)
  {
    if s.isPollingPaused || !hasToken then s
    else match reply
      case RequestFailed => s
      case Reply(status, latest, cameraStatus) =>
        if status != "success" || latest.None? then s
        else
          var a := latest.value;
          if s.isAppJustLoaded then
            s.(processed := Remember(s.processed, a.id), lastAlertId := Some(a.id))
          else if cameraStatus != Some("active") then
            s.(processed := Remember(s.processed, a.id))
          else
            var v := ShouldProcess(FilterOf(s), stored, a.id, now);
            if !v.accept then s.(processed := v.processed)
            else
              var shown := ProcessNewAlert(s, a, now);
              shown.(lastAlertId := Some(a.id), lastAlertTime := Some(now),
                     processed := Remember(shown.processed, a.id))
  }

  /** The one-shot document click listener: ends the load window at once and
      polls; later clicks do nothing. */
  function FirstClick(s: State, hasToken: bool, stored: StoredIds, reply: PollReply, now: int): (r: State)
    requires Inv(s)
    ensures Inv(r)
    ensures !s.awaitingFirstClick ==> r == s
    ensures s.awaitingFirstClick ==> !r.awaitingFirstClick && !r.isAppJustLoaded
  {
    if s.awaitingFirstClick then
      Poll(s.(isAppJustLoaded := false, awaitingFirstClick := false), hasToken, stored, reply, now)
    else s
  }

  /** The one-minute cleanup sweep over the processed collection. */
  function EvictionSweep(s: State): (r: State)
    requires Inv(s)
    ensures Inv(r)
    ensures r.(processed := s.processed) == s
    ensures forall x :: x in r.processed ==> x in s.processed
  {
    EvictKeepsNewest(s.processed);
    s.(processed := Evict(s.processed))
  }

  /** The one-second heartbeat that stores the current time. */
  function Heartbeat(s: State, now: int): (r: State)
    ensures r.heartbeat == now && r.(heartbeat := s.heartbeat) == s
  {
    s.(heartbeat := now)
  }

  // ---------------------------------------------------------------------------
  // Mounting and reload detection
  // ---------------------------------------------------------------------------

  /** The stored heartbeat (if present and numeric) is less than 3 seconds
      old, so this load is taken to be a reload. */
  /** A mount counts as a page reload when a heartbeat is stored and it is
      less than three seconds old. */
  predicate IsReload(storedHeartbeat: Option<int>, now: int) {
    storedHeartbeat.Some? && now - storedHeartbeat.value < ReloadHeartbeatMs
  }

  /** The reload test's boundary: no stored heartbeat is a normal load, one
      just under three seconds old is a reload, and one exactly three seconds
      old is not. */
  lemma ReloadBoundary(now: int)
    ensures !IsReload(None, now)
    ensures IsReload(Some(now - ReloadHeartbeatMs + 1), now)
    ensures !IsReload(Some(now - ReloadHeartbeatMs), now)
  {
  }

  /** The freshly mounted state, apart from its pending timers. */
  function Fresh(now: int): State {
    State([], None, None, [], None, false, false, false, false, true, true, false, [], now)
  }

  /** Mount exactly as the source does it: the 5-second timer that ends the
      load window is armed unconditionally, and a detected reload arms a
      second, 10-second one beside it without cancelling the first. */
  function MountAsWritten(storedHeartbeat: Option<int>, now: int): (r: State)
    ensures Inv(r) && r.isAppJustLoaded && !Rendered(r) && r.queue == []
    ensures Timer(now + LoadWindowMs, EndLoadWindow) in r.timers
  {
    var base := [Timer(now + LoadWindowMs, EndLoadWindow)];
    var extra := if IsReload(storedHeartbeat, now) then [Timer(now + ReloadWindowMs, EndLoadWindow)] else [];
    Fresh(now).(timers := base + extra)
  }

  /** Mount as the reload heuristic intends it: a reload replaces the
      5-second window by a 10-second one. Apart from the first click, the
      load window can only end when the one timer armed here fires. */
  function Mount(storedHeartbeat: Option<int>, now: int): (r: State)
    ensures Inv(r) && r.isAppJustLoaded && r.awaitingFirstClick && !Rendered(r) && r.queue == []
    ensures !r.playing && !r.userStoppedSound && r.processed == []
    ensures IsReload(storedHeartbeat, now) ==> r.timers == [Timer(now + ReloadWindowMs, EndLoadWindow)]
    ensures !IsReload(storedHeartbeat, now) ==> r.timers == [Timer(now + LoadWindowMs, EndLoadWindow)]
  {
    var window := if IsReload(storedHeartbeat, now) then ReloadWindowMs else LoadWindowMs;
    Fresh(now).(timers := [Timer(now + window, EndLoadWindow)])
  }
}
