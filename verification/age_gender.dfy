/** The age-and-gender camera page (src/pages/AgeGenderDetection.jsx): the
    webcam spelling sent as device index "0", removing a deleted camera from
    the list, and which cameras have their frames polled. */
module AgeGender {
  import opened Common

  /** The literal the page compares against, and what it sends instead. */
  const Webcam := "webcam"
  const WebcamDevice := "0"

  /** `path` is "webcam" in any ASCII letter case, with only whitespace
      around it. */
  ghost predicate IsWebcamSpelling(path: string) {
    exists i :: 0 <= i <= |path| - |Webcam|
                && IsBlank(path[..i]) && IsBlank(path[i + |Webcam|..])
                && ToLower(path[i..i + |Webcam|]) == Webcam
  }

  /** Lower-casing neither creates nor removes whitespace. */
  lemma LowerKeepsBlank(s: string)
    ensures IsBlank(ToLower(s)) <==> IsBlank(s)
  {
  }

  /** Lower-casing commutes with slicing. */
  lemma LowerSlice(s: string, lo: nat, hi: nat)
    requires lo <= hi <= |s|
    ensures ToLower(s[lo..hi]) == ToLower(s)[lo..hi]
  {
  }

  /** Where the lower-cased path holds "webcam" between blanks, the path
      holds a webcam spelling. */
  lemma WebcamWitness(path: string, k: nat)
    requires k + 6 <= |path|
    requires var q := ToLower(path); Webcam == q[k..k + 6] && IsBlank(q[..k]) && IsBlank(q[k + 6..])
    ensures IsWebcamSpelling(path)
  {
    LowerSlice(path, 0, k);
    LowerSlice(path, k, k + 6);
    LowerSlice(path, k + 6, |path|);
    assert path[..k] == path[0..k] && path[k + 6..] == path[k + 6..|path|];
    LowerKeepsBlank(path[..k]);
    LowerKeepsBlank(path[k + 6..]);
  }

  /** A path that passes the test is a webcam spelling. */
  lemma WebcamTestSound(path: string)
    requires Trim(ToLower(path)) == Webcam
    ensures IsWebcamSpelling(path)
  {
    var q := ToLower(path);
    TrimMargins(q);
    WebcamWitness(path, TrimLo(q));
  }

  /** A webcam spelling lower-cases to "webcam" between blanks. */
  lemma WebcamSpellingLowered(path: string, i: nat)
    requires i + 6 <= |path|
    requires IsBlank(path[..i]) && IsBlank(path[i + 6..]) && ToLower(path[i..i + 6]) == Webcam
    ensures var q := ToLower(path); q[i..i + 6] == Webcam && IsBlank(q[..i]) && IsBlank(q[i + 6..])
  {
    LowerSlice(path, 0, i);
    LowerSlice(path, i, i + 6);
    LowerSlice(path, i + 6, |path|);
    assert path[..i] == path[0..i] && path[i + 6..] == path[i + 6..|path|];
    LowerKeepsBlank(path[..i]);
    LowerKeepsBlank(path[i + 6..]);
  }

  /** Every webcam spelling passes the test. */
  lemma WebcamTestComplete(path: string)
    requires IsWebcamSpelling(path)
    ensures Trim(ToLower(path)) == Webcam
  {
    var i :| 0 <= i <= |path| - |Webcam|
             && IsBlank(path[..i]) && IsBlank(path[i + |Webcam|..])
             && ToLower(path[i..i + |Webcam|]) == Webcam;
    WebcamSpellingLowered(path, i);
    var q := ToLower(path);
    assert q[i] == q[i..i + 6][0] && q[i + 5] == q[i..i + 6][5];
    TrimOfPadded(q, i, i + 6);
  }

  /** `videoPath.toLowerCase().trim() === 'webcam'` holds exactly for the
      webcam spellings. */
  lemma WebcamTestIff(path: string)
    ensures Trim(ToLower(path)) == Webcam <==> IsWebcamSpelling(path)
  {
    if Trim(ToLower(path)) == Webcam { WebcamTestSound(path); }
    if IsWebcamSpelling(path) { WebcamTestComplete(path); }
  }

  /** The `video_path` the connect request carries: "0" for a webcam
      spelling, the path as typed otherwise. */
  function VideoPathSent(path: string): (r: string)
    ensures IsWebcamSpelling(path) ==> r == WebcamDevice
    ensures !IsWebcamSpelling(path) ==> r == path
  {
    WebcamTestIff(path);
    if Trim(ToLower(path)) == Webcam then WebcamDevice else path
  }

  /** Case and surrounding whitespace do not matter; anything more does. */
  lemma WebcamExamples()
    ensures VideoPathSent(" WebCam\n") == WebcamDevice
    ensures VideoPathSent("webcam2") == "webcam2"
  {
    var p := " WebCam\n";
    var q := ToLower(p);
    assert q == " webcam\n";
    assert q[..1] == " " && q[7..] == "\n";
    TrimOfPadded(q, 1, 7);
    assert q[1..7] == Webcam;
    var w := "webcam2";
    assert ToLower(w) == w;
    assert w[..0] == [] && w[7..] == [];
    TrimOfPadded(w, 0, 7);
    assert w[0..7] == w;
  }

  /** A listed camera: its backend id, if it has one. */
  datatype Camera = Camera(cameraId: Option<string>, name: string)

  /** The list after a delete, and whether the page leaves for the
      analysis view. */
  datatype AfterDelete = AfterDelete(cameras: seq<Camera>, toAnalysis: bool)

  /** `handleDeleteCamera(id)` with the server's verdict: on success the
      cameras with that id are dropped, in order, and an emptied list sends
      the page to the analysis view; otherwise nothing changes. */
  function DeleteCamera(cams: seq<Camera>, id: string, succeeded: bool): (r: AfterDelete)
    ensures succeeded ==> forall i :: 0 <= i < |r.cameras| ==> r.cameras[i].cameraId != Some(id) && r.cameras[i] in cams
    ensures succeeded ==> forall i :: 0 <= i < |cams| && cams[i].cameraId != Some(id) ==> cams[i] in r.cameras
    ensures succeeded ==> forall c :: multiset(r.cameras)[c] == if c.cameraId != Some(id) then multiset(cams)[c] else 0
    ensures succeeded ==> Subsequence(r.cameras, cams)
    ensures r.toAnalysis <==> succeeded && r.cameras == []
    ensures !succeeded ==> r.cameras == cams
  {
    if succeeded then
      FilterCountsAll(cams, (c: Camera) => c.cameraId != Some(id));
      var kept := Filter(cams, (c: Camera) => c.cameraId != Some(id));
      AfterDelete(kept, kept == [])
    else AfterDelete(cams, false)
  }

  /** The ids whose frames are polled: those of cameras with a truthy id,
      in list order. */
  function PolledIds(cams: seq<Camera>): (r: seq<string>)
    ensures |r| <= |cams|
    ensures forall k :: 0 <= k < |r| ==> r[k] != "" && exists i :: 0 <= i < |cams| && cams[i].cameraId == Some(r[k])
    ensures forall i :: 0 <= i < |cams| && Truthy(cams[i].cameraId) ==> cams[i].cameraId.value in r
  {
    if cams == [] then []
    else
      var rest := PolledIds(cams[1..]);
      if Truthy(cams[0].cameraId) then [cams[0].cameraId.value] + rest else rest
  }

  /** A polled id belongs to some listed camera. */
  lemma PolledIdsComeFromCameras(cams: seq<Camera>, x: string)
    ensures x in PolledIds(cams) <==> x != "" && exists i :: 0 <= i < |cams| && cams[i].cameraId == Some(x)
  {
    var r := PolledIds(cams);
    if x in r {
      var k :| 0 <= k < |r| && r[k] == x;
    }
  }

  /** After a successful delete the deleted id is no longer polled and every
      other id is polled exactly as before. */
  lemma DeletedCameraStopsPolling(cams: seq<Camera>, id: string, x: string)
    ensures var after := DeleteCamera(cams, id, true).cameras;
            (x in PolledIds(after) <==> x != id && x in PolledIds(cams))
  {
    var after := DeleteCamera(cams, id, true).cameras;
    PolledIdsComeFromCameras(cams, x);
    PolledIdsComeFromCameras(after, x);
    if x != id && x in PolledIds(cams) {
      var i :| 0 <= i < |cams| && cams[i].cameraId == Some(x);
      assert cams[i] in after;
    }
  }
}
