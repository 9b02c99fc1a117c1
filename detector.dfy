/** The intent gate of src/detector.py: a pure chain of checks that decides
    whether a detected face is presented deliberately to the kiosk.
    Box coordinates are whole pixels; the score, the landmark coordinates and
    the ratios are exact reals. */
module Detector {
  import opened Numeric
  import opened SrcConfig

  /** A face box [x1, y1, x2, y2] in pixels ('facial_area'). */
  datatype Box = Box(x1: int, y1: int, x2: int, y2: int)

  /** The x-coordinates of the three landmarks the gaze gate reads. */
  datatype Landmarks = Landmarks(leftEyeX: real, rightEyeX: real, noseX: real)

  /** One detected face as the detection model reports it. */
  datatype Face = Face(box: Box, landmarks: Landmarks, score: real)

  /** A rectangle in pixels: the region of interest. */
  datatype Rect = Rect(x1: int, y1: int, x2: int, y2: int)

  /** The (accepted, message) pair that verify_intent returns. */
  datatype Verdict = Verdict(accepted: bool, message: string)

  /** The central region of interest of a `width` x `height` frame, as both
      verify_intent and draw_roi compute it: the middle RoiCenterPct of the
      width and the band from 20% to 80% of the height, each bound truncated. */
  function Roi(width: nat, height: nat): (r: Rect)
    ensures 0 <= r.x1 <= r.x2 <= width && 0 <= r.y1 <= r.y2 <= height
    ensures r.x1 as real <= width as real * 0.3 < r.x1 as real + 1.0
    ensures r.x2 as real <= width as real * 0.7 < r.x2 as real + 1.0
    ensures r.y1 as real <= height as real * 0.2 < r.y1 as real + 1.0
    ensures r.y2 as real <= height as real * 0.8 < r.y2 as real + 1.0
  {
    Rect(Trunc(width as real * (0.5 - RoiCenterPct / 2.0)),
         Trunc(height as real * 0.2),
         Trunc(width as real * (0.5 + RoiCenterPct / 2.0)),
         Trunc(height as real * 0.8))
  }

  /** Centre of a box, with floor division as `//` does. */
  function CenterX(b: Box): (cx: int) { (b.x1 + b.x2) / 2 }
  function CenterY(b: Box): (cy: int) { (b.y1 + b.y2) / 2 }

  /** Gate 1: the detection is confident enough. */
  predicate Confident(f: Face) { f.score >= RetinaConfidence }

  /** Gate 2: the box centre lies strictly inside the region of interest. */
  predicate InRoi(b: Box, width: nat, height: nat) {
    var r := Roi(width, height);
    r.x1 < CenterX(b) < r.x2 && r.y1 < CenterY(b) < r.y2
  }

  /** Gate 3: the face is wide enough, a proxy for standing close. */
  predicate WideEnough(b: Box) { b.x2 - b.x1 >= MinFaceWidth }

  /** The eyes are horizontally apart, so the nose ratio is defined. */
  predicate EyesApart(l: Landmarks) { l.rightEyeX - l.leftEyeX != 0.0 }

  /** Where the nose sits between the eyes: 0 at the left eye, 1 at the right. */
  function NoseRatio(l: Landmarks): (ratio: real)
    requires EyesApart(l)
  {
    (l.noseX - l.leftEyeX) / (l.rightEyeX - l.leftEyeX)
  }

  /** Gate 4: the nose ratio lies in the gaze band, both ends included. */
  predicate FacingCamera(l: Landmarks)
    requires EyesApart(l)
  {
    GazeThresholdLow <= NoseRatio(l) <= GazeThresholdHigh
  }

  /** verify_intent: the first failing check decides the message. */
  function VerifyIntent(f: Face, width: nat, height: nat): (v: Verdict)
    ensures f.score < RetinaConfidence ==> v == Verdict(false, "Low Conf")
    ensures v.accepted <==> v.message == "Verified"
    ensures v.accepted <==>
      Confident(f) && InRoi(f.box, width, height) && WideEnough(f.box) &&
      EyesApart(f.landmarks) && FacingCamera(f.landmarks)
    ensures Confident(f) && !InRoi(f.box, width, height) ==> v == Verdict(false, "Step in Box")
    ensures Confident(f) && InRoi(f.box, width, height) && !WideEnough(f.box) ==> v == Verdict(false, "Come Closer")
    ensures Confident(f) && InRoi(f.box, width, height) && WideEnough(f.box) && !EyesApart(f.landmarks) ==>
      v == Verdict(false, "Angle Err")
    ensures Confident(f) && InRoi(f.box, width, height) && WideEnough(f.box) && EyesApart(f.landmarks) ==>
      (v.accepted <==> !(NoseRatio(f.landmarks) < GazeThresholdLow) && !(NoseRatio(f.landmarks) > GazeThresholdHigh))
  {
    var b, l := f.box, f.landmarks;
    if f.score < RetinaConfidence then Verdict(false, "Low Conf")
    else
      var r := Roi(width, height);
      if !(r.x1 < CenterX(b) < r.x2 && r.y1 < CenterY(b) < r.y2) then Verdict(false, "Step in Box")
      else if b.x2 - b.x1 < MinFaceWidth then Verdict(false, "Come Closer")
      else if l.rightEyeX - l.leftEyeX == 0.0 then Verdict(false, "Angle Err")
      else if NoseRatio(l) < GazeThresholdLow || NoseRatio(l) > GazeThresholdHigh then Verdict(false, "Look Straight")
      else Verdict(true, "Verified")
  }

  /** One check of the chain: whether it passed and the message it fails with. */
  datatype Gate = Gate(passed: bool, failure: string)

  /** The checks of the intent gate in the order the source runs them. */
  function Gates(f: Face, width: nat, height: nat): (gs: seq<Gate>)
    ensures |gs| == 5
  {
    var l := f.landmarks;
    [ Gate(Confident(f), "Low Conf"),
      Gate(InRoi(f.box, width, height), "Step in Box"),
      Gate(WideEnough(f.box), "Come Closer"),
      Gate(EyesApart(l), "Angle Err"),
      Gate(!EyesApart(l) || FacingCamera(l), "Look Straight") ]
  }

  /** Reference semantics of a short-circuiting gate chain: the first failing
      gate decides, and a chain with no failure verifies. */
  function FirstFailure(gs: seq<Gate>): (v: Verdict)
    ensures v.accepted <==> forall i :: 0 <= i < |gs| ==> gs[i].passed
    ensures !v.accepted ==> exists i :: (0 <= i < |gs| && !gs[i].passed && v.message == gs[i].failure &&
      forall j :: 0 <= j < i ==> gs[j].passed)
  {
    if gs == [] then Verdict(true, "Verified")
    else if !gs[0].passed then Verdict(false, gs[0].failure)
    else
      var v := FirstFailure(gs[1..]);
      assert !v.accepted ==> exists i :: (1 <= i < |gs| && !gs[i].passed && v.message == gs[i].failure &&
        forall j :: 0 <= j < i ==> gs[j].passed) by {
        if !v.accepted {
          var i :| 0 <= i < |gs[1..]| && !gs[1..][i].passed && v.message == gs[1..][i].failure &&
            forall j :: 0 <= j < i ==> gs[1..][j].passed;
          assert forall j :: 1 <= j < i + 1 ==> gs[j].passed by {
            forall j | 1 <= j < i + 1 ensures gs[j].passed { assert gs[j] == gs[1..][j - 1]; }
          }
        }
      }
      v
  }

  /** verify_intent is exactly the short-circuiting chain of its four gates,
      run in the order confidence, region, size, gaze. */
  lemma {:induction false} VerifyIntentIsFirstFailingGate(f: Face, width: nat, height: nat)
    ensures VerifyIntent(f, width, height) == FirstFailure(Gates(f, width, height))
  {
    var gs := Gates(f, width, height);
    assert FirstFailure(gs[5..]) == Verdict(true, "Verified");
    assert gs[4..][1..] == gs[5..] && gs[3..][1..] == gs[4..] && gs[2..][1..] == gs[3..] && gs[1..][1..] == gs[2..];
    assert FirstFailure(gs[4..]) == if !gs[4].passed then Verdict(false, gs[4].failure) else FirstFailure(gs[5..]);
    assert FirstFailure(gs[3..]) == if !gs[3].passed then Verdict(false, gs[3].failure) else FirstFailure(gs[4..]);
    assert FirstFailure(gs[2..]) == if !gs[2].passed then Verdict(false, gs[2].failure) else FirstFailure(gs[3..]);
    assert FirstFailure(gs[1..]) == if !gs[1].passed then Verdict(false, gs[1].failure) else FirstFailure(gs[2..]);
  }
}
