/** The shoplifting camera page (src/pages/ShopliftingDetection.jsx): each
    camera's frame image is refreshed by polling and stamped with the time of
    the last refresh; a periodic check blanks an image that has not been
    refreshed for more than ten seconds and restamps it. Times are
    milliseconds. */
module ShopliftingDetection {
  import opened Common

  /** An image older than this many milliseconds is stuck. */
  const StuckAfterMs := 10000

  /** The frame's image element: absent from the page, or present with its
      source and the stamp of its last refresh, if any. */
  datatype FrameView = Absent | Present(src: string, lastUpdated: Option<int>)

  /** The frame endpoint's answer. */
  datatype FrameReply = FrameFailed | FrameReplied(status: string, frame: string)

  /** The answer carries a new image. */
  predicate Delivers(reply: FrameReply) {
    reply.FrameReplied? && reply.status == "success" && reply.frame != ""
  }

  /** `pollFrames` at time `now`: a delivered image replaces the element's
      source and stamps it with `now`; anything else leaves the element. */
  function PollFrame(v: FrameView, reply: FrameReply, now: int): (r: FrameView)
    ensures r.Present? <==> v.Present?
    ensures v.Present? && Delivers(reply) ==>
              r.lastUpdated == Some(now) && r.src == "data:image/jpeg;base64," + reply.frame
    ensures !(v.Present? && Delivers(reply)) ==> r == v
  {
    if v.Present? && Delivers(reply) then Present("data:image/jpeg;base64," + reply.frame, Some(now))
    else v
  }

  /** The image is present, stamped, and the stamp is more than ten seconds
      old. */
  predicate Stuck(v: FrameView, now: int) {
    v.Present? && v.lastUpdated.Some? && now - v.lastUpdated.value > StuckAfterMs
  }

  /** `checkStuckFrames` at time `now`: a stuck image is blanked and
      restamped with `now`; otherwise nothing changes. */
  function CheckStuckFrames(v: FrameView, now: int): (r: FrameView)
    ensures r != v <==> Stuck(v, now) && !(v.src == "" && v.lastUpdated == Some(now))
    ensures Stuck(v, now) ==> r.Present? && r.src == "" && r.lastUpdated == Some(now)
    ensures !Stuck(v, now) ==> r == v
  {
    if v.Present? && v.lastUpdated.Some? then
      var lastUpdated := v.lastUpdated.value;
      if now - lastUpdated > StuckAfterMs then Present("", Some(now)) else v
    else v
  }

  /** An image that has never been stamped is never blanked. */
  lemma UnstampedNeverStuck(src: string, now: int)
    ensures CheckStuckFrames(Present(src, None), now) == Present(src, None)
  {
  }

  /** A blanked image is not stuck again for the next ten seconds, so a
      second check at the same time changes nothing. */
  lemma ResetGivesTenSeconds(v: FrameView, now: int, later: int)
    requires Stuck(v, now)
    requires now <= later <= now + StuckAfterMs
    ensures var r := CheckStuckFrames(v, now); CheckStuckFrames(r, later) == r
  {
  }

  /** The check blanks exactly when the last refresh is more than ten
      seconds old: a refresh at `t0` survives every check up to `t0 + 10000`
      and is blanked by one after it. */
  lemma RefreshSurvivesTenSeconds(v: FrameView, reply: FrameReply, t0: int, t: int)
    requires v.Present? && Delivers(reply)
    ensures var r := PollFrame(v, reply, t0);
            (CheckStuckFrames(r, t) == r <==> t <= t0 + StuckAfterMs)
  {
  }

  /** A page's life on one camera: polls and checks, each with its time. */
  datatype Event = Poll(reply: FrameReply, at: int) | Check(at: int)

  /** The element after a sequence of events. */
  function Run(v: FrameView, es: seq<Event>): (r: FrameView)
    ensures r.Present? <==> v.Present?
    decreases |es|
  {
    if es == [] then v
    else
      var v1 := match es[0]
                case Poll(reply, at) => PollFrame(v, reply, at)
                case Check(at) => CheckStuckFrames(v, at);
      Run(v1, es[1..])
  }

  /** Checks are the only events here. */
  predicate OnlyChecks(es: seq<Event>) {
    forall i :: 0 <= i < |es| ==> es[i].Check?
  }

  /** After a refresh stamped `t0`, checks made no later than ten seconds
      after it keep the refreshed image. */
  lemma {:induction false} ChecksWithinWindowKeepImage(v: FrameView, t0: int, es: seq<Event>)
    requires v.Present? && v.lastUpdated == Some(t0)
    requires OnlyChecks(es)
    requires forall i :: 0 <= i < |es| ==> es[i].at <= t0 + StuckAfterMs
    ensures Run(v, es) == v
    decreases |es|
  {
    if es != [] {
      assert es[0].Check?;
      assert CheckStuckFrames(v, es[0].at) == v;
      ChecksWithinWindowKeepImage(v, t0, es[1..]);
    }
  }
}
