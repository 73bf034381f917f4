/** The people-counter page (src/pages/peoplecounter.jsx): the camera list
    filter, the video-path guard, and the polygon-drawing dialog in which
    four clicks draw the entry area, four more the exit area, and the last
    click asks the server to connect the camera with both polygons. */
module PeopleCounter {
  import opened Common

  // ---------------------------------------------------------------------------
  // Camera list and plain connection
  // ---------------------------------------------------------------------------

  /** A listed camera; only its id matters here. */
  datatype Camera = Camera(id: Option<string>, name: string)

  /** `loadCameras`: only cameras with a truthy id are kept, in order. */
  function ActiveCameras(cams: seq<Camera>): (r: seq<Camera>)
    ensures forall i :: 0 <= i < |r| ==> Truthy(r[i].id) && r[i] in cams
    ensures forall i :: 0 <= i < |cams| && Truthy(cams[i].id) ==> cams[i] in r
    ensures forall c :: multiset(r)[c] == if Truthy(c.id) then multiset(cams)[c] else 0
    ensures Subsequence(r, cams)
  {
    FilterCountsAll(cams, (c: Camera) => Truthy(c.id));
    Filter(cams, (c: Camera) => Truthy(c.id))
  }

  /** `handleConnectCamera`'s guard: a video path that is blank after trimming
      is refused; any other path is sent as typed, untrimmed. */
  function ConnectCameraPath(videoPath: string): (r: Option<string>)
    ensures r.None? <==> IsBlank(videoPath)
    ensures r.Some? ==> r.value == videoPath
  {
    TrimEmptyIffBlank(videoPath);
    if Trim(videoPath) == "" then None else Some(videoPath)
  }

  /** Surrounding blanks survive the guard: the server sees them. */
  lemma PathSentUntrimmed()
    ensures ConnectCameraPath(" a.mp4") == Some(" a.mp4")
  {
    assert !IsBlank(" a.mp4") by { assert !IsJsWhitespace(" a.mp4"[1]); }
  }

  // ---------------------------------------------------------------------------
  // Polygon drawing
  // ---------------------------------------------------------------------------

  /** A clicked canvas point, already scaled and rounded. */
  datatype Point = Point(x: int, y: int)

  /** Both areas are quadrilaterals. */
  const PolygonSize := 4

  /** The dialog's state: whether it is open, the points of the polygon being
      drawn, the finished entry and exit polygons, which one is being drawn,
      and the camera form's name and video path. */
  datatype Drawing = Drawing(modalOpen: bool, temp: seq<Point>, entry: seq<Point>, exit: seq<Point>,
                             drawingEntry: bool, name: string, videoPath: string)

  /** The dialog as the Next button opens it for a typed camera. */
  function Opened(name: string, videoPath: string): Drawing {
    Drawing(true, [], [], [], true, name, videoPath)
  }

  /** The state after the dialog is closed or a connection succeeded. */
  const Closed := Drawing(false, [], [], [], true, "", "")

  /** `points.map(point => [point.x, point.y])` */
  function Pairs(pts: seq<Point>): (r: seq<(int, int)>)
    ensures |r| == |pts|
    ensures forall i :: 0 <= i < |pts| ==> r[i] == (pts[i].x, pts[i].y)
  {
    seq(|pts|, i requires 0 <= i < |pts| => (pts[i].x, pts[i].y))
  }

  /** Reading the pairs back. */
  function Points(ps: seq<(int, int)>): (r: seq<Point>)
    ensures |r| == |ps|
  {
    seq(|ps|, i requires 0 <= i < |ps| => Point(ps[i].0, ps[i].1))
  }

  /** The serialisation keeps every point and its order. */
  lemma PairsRoundTrip(pts: seq<Point>)
    ensures Points(Pairs(pts)) == pts
  {
    var back := Points(Pairs(pts));
    forall i | 0 <= i < |pts| ensures back[i] == pts[i] {
      assert Pairs(pts)[i] == (pts[i].x, pts[i].y);
    }
  }

  /** What the connect call sends. */
  datatype ConnectRequest = ConnectRequest(name: string, videoPath: string,
                                           entryPoints: seq<(int, int)>, exitPoints: seq<(int, int)>)

  /** The fate of a connect attempt. */
  datatype Connect = Skipped | Incomplete | Sent(request: ConnectRequest)

  /** `handleConnectWithPolygons(exitPoints)` with the server's verdict:
      nothing happens while the dialog is closed; polygons other than two
      quadrilaterals are refused; otherwise both are sent as pairs, and a
      successful connection resets and closes the dialog while a failed one
      leaves it as it is. */
  function ConnectWithPolygons(d: Drawing, exitPts: seq<Point>, succeeded: bool): (r: (Drawing, Connect))
    ensures r.1 == Skipped <==> !d.modalOpen
    ensures r.1 == Incomplete <==> d.modalOpen && (|d.entry| != PolygonSize || |exitPts| != PolygonSize)
    ensures r.1.Sent? ==>
              && Points(r.1.request.entryPoints) == d.entry
              && Points(r.1.request.exitPoints) == exitPts
              && r.1.request.name == d.name && r.1.request.videoPath == d.videoPath
    ensures r.1.Sent? && succeeded ==> r.0 == Closed
    ensures !(r.1.Sent? && succeeded) ==> r.0 == d
  {
    if !d.modalOpen then (d, Skipped)
    else if |d.entry| != PolygonSize || |exitPts| != PolygonSize then (d, Incomplete)
    else
      PairsRoundTrip(d.entry);
      PairsRoundTrip(exitPts);
      var req := ConnectRequest(d.name, d.videoPath, Pairs(d.entry), Pairs(exitPts));
      (if succeeded then Closed else d, Sent(req))
  }

  /** `handleCanvasClick` at point `p`: the point is appended; the fourth
      point of the entry area finishes it and starts the exit area; the
      fourth point of the exit area finishes it and attempts to connect,
      whose verdict is `succeeded`. */
  function Click(d: Drawing, p: Point, succeeded: bool): (r: (Drawing, Option<Connect>))
    ensures |d.temp| + 1 != PolygonSize ==> r == (d.(temp := d.temp + [p]), None)
    ensures |d.temp| + 1 == PolygonSize && d.drawingEntry ==>
              r == (d.(entry := d.temp + [p], drawingEntry := false, temp := []), None)
    ensures |d.temp| + 1 == PolygonSize && !d.drawingEntry ==>
              && r.1.Some?
              && (r.1.value.Sent? ==> Points(r.1.value.request.exitPoints) == d.temp + [p])
  {
    var pts := d.temp + [p];
    if |pts| == PolygonSize then
      if d.drawingEntry then (d.(entry := pts, drawingEntry := false, temp := []), None)
      else
        var (e, c) := ConnectWithPolygons(d.(exit := pts, temp := pts), pts, succeeded);
        (e, Some(c))
    else (d.(temp := pts), None)
  }

  /** The dialog's invariant while open: the entry area is being drawn with
      fewer than four points and nothing finished, or it is finished. */
  predicate Inv(d: Drawing) {
    d.modalOpen ==>
      if d.drawingEntry then |d.temp| < PolygonSize && d.entry == [] && d.exit == []
      else |d.entry| == PolygonSize
  }

  /** A click made from a state satisfying the invariant keeps it. */
  lemma ClickKeepsInv(d: Drawing, p: Point, succeeded: bool)
    requires Inv(d)
    ensures Inv(Click(d, p, succeeded).0)
  {
  }

  /** The dialog as opened satisfies the invariant. */
  lemma OpenedSatisfiesInv(name: string, videoPath: string)
    ensures Inv(Opened(name, videoPath)) && Inv(Closed)
  {
  }

  /** A sequence of clicks with the server's verdicts, and the connect
      attempts they make. */
  function Clicks(d: Drawing, ps: seq<Point>, verdicts: seq<bool>): (r: (Drawing, seq<Connect>))
    requires |verdicts| == |ps|
    decreases |ps|
  {
    if ps == [] then (d, [])
    else
      var step := Click(d, ps[0], verdicts[0]);
      var rest := Clicks(step.0, ps[1..], verdicts[1..]);
      (rest.0, (if step.1.Some? then [step.1.value] else []) + rest.1)
  }

  /** Drawing through the open dialog never reaches the "draw both areas"
      refusal: every attempt is sent with two quadrilaterals, or skipped once
      a successful connection has closed the dialog. */
  lemma {:induction false} ClicksNeverIncomplete(d: Drawing, ps: seq<Point>, verdicts: seq<bool>)
    requires d.modalOpen && Inv(d)
    requires |verdicts| == |ps|
    ensures forall c :: c in Clicks(d, ps, verdicts).1 ==> c != Incomplete
    decreases |ps|
  {
    if ps != [] {
      var (d1, c) := Click(d, ps[0], verdicts[0]);
      ClickKeepsInv(d, ps[0], verdicts[0]);
      if d1.modalOpen {
        ClicksNeverIncomplete(d1, ps[1..], verdicts[1..]);
      } else {
        ClosedNeverConnects(d1, ps[1..], verdicts[1..]);
      }
    }
  }

  /** Clicks on a closed dialog's state attempt nothing that is sent. */
  lemma {:induction false} ClosedNeverConnects(d: Drawing, ps: seq<Point>, verdicts: seq<bool>)
    requires !d.modalOpen
    requires |verdicts| == |ps|
    ensures forall c :: c in Clicks(d, ps, verdicts).1 ==> c == Skipped
    decreases |ps|
  {
    if ps != [] {
      var (d1, c) := Click(d, ps[0], verdicts[0]);
      assert !d1.modalOpen;
      ClosedNeverConnects(d1, ps[1..], verdicts[1..]);
    }
  }

  /** A click that attempts nothing only moves the drawing on. */
  lemma ClicksQuietStep(d: Drawing, ps: seq<Point>, verdicts: seq<bool>)
    requires |verdicts| == |ps| > 0
    requires Click(d, ps[0], verdicts[0]).1.None?
    ensures Clicks(d, ps, verdicts) == Clicks(Click(d, ps[0], verdicts[0]).0, ps[1..], verdicts[1..])
  {
    var rest := Clicks(Click(d, ps[0], verdicts[0]).0, ps[1..], verdicts[1..]);
    assert [] + rest.1 == rest.1;
    assert (rest.0, rest.1) == rest;
  }

  /** The first four clicks of a freshly opened dialog are the entry area. */
  lemma FourClicksDrawEntry(name: string, videoPath: string, ps: seq<Point>, verdicts: seq<bool>)
    requires |ps| == PolygonSize && |verdicts| == PolygonSize
    ensures var (d, cs) := Clicks(Opened(name, videoPath), ps, verdicts);
            d.entry == ps && !d.drawingEntry && d.temp == [] && cs == []
  {
    var d0 := Opened(name, videoPath);
    var d1 := Click(d0, ps[0], verdicts[0]).0;
    var d2 := Click(d1, ps[1], verdicts[1]).0;
    var d3 := Click(d2, ps[2], verdicts[2]).0;
    var d4 := Click(d3, ps[3], verdicts[3]).0;
    assert d3.temp == [ps[0], ps[1], ps[2]];
    assert d4.entry == ps;
    ClicksQuietStep(d0, ps, verdicts);
    ClicksQuietStep(d1, ps[1..], verdicts[1..]);
    ClicksQuietStep(d2, ps[2..], verdicts[2..]);
    ClicksQuietStep(d3, ps[3..], verdicts[3..]);
    assert ps[1..][1..] == ps[2..] && ps[2..][1..] == ps[3..] && ps[3..][1..] == [];
    assert verdicts[1..][1..] == verdicts[2..] && verdicts[2..][1..] == verdicts[3..] && verdicts[3..][1..] == [];
  }

  /** After a failed connection the exit points stay collected, so no later
      click finishes a polygon or attempts to connect again until the dialog
      is closed. */
  lemma {:induction false} FailedConnectBlocksRetry(d: Drawing, ps: seq<Point>, verdicts: seq<bool>)
    requires !d.drawingEntry && |d.temp| >= PolygonSize
    requires |verdicts| == |ps|
    ensures Clicks(d, ps, verdicts).1 == []
    ensures |Clicks(d, ps, verdicts).0.temp| == |d.temp| + |ps|
    decreases |ps|
  {
    if ps != [] {
      var d1 := Click(d, ps[0], verdicts[0]).0;
      assert d1 == d.(temp := d.temp + [ps[0]]);
      FailedConnectBlocksRetry(d1, ps[1..], verdicts[1..]);
    }
  }

  /** The state a failed exit click leaves behind is such a blocked state. */
  lemma FailedExitClickBlocks(d: Drawing, p: Point)
    requires Inv(d) && d.modalOpen && !d.drawingEntry && |d.temp| + 1 == PolygonSize
    ensures Click(d, p, false).1 == Some(Sent(Click(d, p, false).1.value.request))
    ensures var e := Click(d, p, false).0; !e.drawingEntry && |e.temp| >= PolygonSize
  {
  }
}
