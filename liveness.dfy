/** The liveness challenge of src/liveness.py: a per-session state machine
    that asks for a blink or a head turn, with a timeout and a lockout after
    repeated failures. The clock and the random choice are parameters; the
    point distances of the eye aspect ratio are given as reals. */
module Liveness {
  import opened Numeric
  import opened CoreConfig

  /** verify_challenge refuses to run once this many attempts have failed. */
  const MaxFailedAttempts: nat := 5

  datatype Challenge = Blink | LookLeft | LookRight

  datatype Pose = Left | Right | Center

  /** An eye as the landmark model reports it: `coords` is the number of flat
      coordinates (12 for a six-point contour), `cornerX` the x-coordinate of
      point 0, and the two vertical and the horizontal point distances that
      the eye aspect ratio divides. */
  datatype EyeContour = EyeContour(coords: nat, cornerX: real, vertical1: real, vertical2: real, horizontal: real)

  /** The nose anchor: its number of coordinates (2 for one point) and its x. */
  datatype Nose = Nose(coords: nat, x: real)

  /** The landmark dictionary; None is a key that is missing. */
  datatype Landmarks = Landmarks(leftEye: Option<EyeContour>, rightEye: Option<EyeContour>, nose: Option<Nose>)

  /** The messages verify_challenge reports, with the values they format. */
  datatype Message =
    | NoMessage
    | MaxAttemptsReached
    | TimedOut(challenge: Option<Challenge>)
    | BlinkVerified(count: nat)
    | BlinkPending(elapsed: int)
    | LookLeftVerified
    | LookLeftPrompt
    | LookRightVerified
    | LookRightPrompt
    | UnknownChallenge

  /** calculate_eye_aspect_ratio: the ratio of eye height to width, or 1.0
      (open) for a contour that is not six points or has no width. */
  function EyeAspectRatio(eye: EyeContour): (ear: real)
    ensures eye.coords != 12 ==> ear == 1.0
    ensures eye.horizontal <= 0.0 ==> ear == 1.0
    ensures eye.coords == 12 && eye.horizontal > 0.0 ==>
      ear * (2.0 * eye.horizontal) == eye.vertical1 + eye.vertical2
  {
    if eye.coords != 12 then 1.0
    else if eye.horizontal > 0.0 then (eye.vertical1 + eye.vertical2) / (2.0 * eye.horizontal)
    else 1.0
  }

  /** Distances are never negative, so neither is the eye aspect ratio. */
  lemma {:induction false} EyeAspectRatioNonNegative(eye: EyeContour)
    requires eye.vertical1 >= 0.0 && eye.vertical2 >= 0.0
    ensures EyeAspectRatio(eye) >= 0.0
  {
  }

  predicate EyesPresent(lm: Landmarks) { lm.leftEye.Some? && lm.rightEye.Some? }

  /** The mean eye aspect ratio of both eyes is below the blink threshold. */
  predicate EyesClosed(lm: Landmarks)
    requires EyesPresent(lm)
  {
    (EyeAspectRatio(lm.leftEye.value) + EyeAspectRatio(lm.rightEye.value)) / 2.0 < BlinkThreshold
  }

  /** An eye that is not a six-point contour reads as open (ratio 1.0), and so
      the pair reads as open whatever the other eye shows. */
  lemma {:induction false} MalformedEyeReadsOpen(lm: Landmarks)
    requires EyesPresent(lm)
    requires lm.leftEye.value.coords != 12 || lm.rightEye.value.coords != 12
    requires lm.leftEye.value.vertical1 >= 0.0 && lm.leftEye.value.vertical2 >= 0.0
    requires lm.rightEye.value.vertical1 >= 0.0 && lm.rightEye.value.vertical2 >= 0.0
    ensures !EyesClosed(lm)
  {
    EyeAspectRatioNonNegative(lm.leftEye.value);
    EyeAspectRatioNonNegative(lm.rightEye.value);
  }

  /** Appending to the blink deque of length `cap`: the new frame goes at the
      right and the oldest frames fall off the left. */
  function Window(history: seq<bool>, frame: bool, cap: nat): (w: seq<bool>)
    requires cap > 0
    ensures |w| == if |history| < cap then |history| + 1 else cap
    ensures w == (history + [frame])[|history| + 1 - |w|..]
    ensures w[|w| - 1] == frame
  {
    var h := history + [frame];
    if |h| > cap then h[|h| - cap..] else h
  }

  /** The blink pattern of detect_blink: a full window with at least one
      closed frame (any) and at least one open frame (not all). */
  function IsBlink(window: seq<bool>): (b: bool)
    ensures b <==> (|window| == BlinkFrames &&
      (exists i :: 0 <= i < |window| && window[i]) &&
      (exists i :: 0 <= i < |window| && !window[i]))
  {
    |window| == BlinkFrames && true in window && false in window
  }

  /** Two frames that differ have, somewhere between them, two neighbouring
      frames that differ. */
  lemma {:induction false} NeighboursDiffer(w: seq<bool>, i: nat, j: nat)
    requires i < j < |w| && w[i] != w[j]
    ensures exists k :: i <= k < j && w[k] != w[k + 1]
    decreases j - i
  {
    if w[i] == w[i + 1] {
      NeighboursDiffer(w, i + 1, j);
    }
  }

  /** What the blink pattern means: a full window in which the eyes went
      from closed to open or from open to closed between two frames. */
  lemma {:induction false} BlinkIsATransition(w: seq<bool>)
    ensures IsBlink(w) <==> |w| == BlinkFrames && exists i :: 0 <= i < |w| - 1 && w[i] != w[i + 1]
  {
    if IsBlink(w) {
      var a :| 0 <= a < |w| && w[a];
      var b :| 0 <= b < |w| && !w[b];
      if a < b { NeighboursDiffer(w, a, b); } else { NeighboursDiffer(w, b, a); }
    }
    if |w| == BlinkFrames && exists i :: 0 <= i < |w| - 1 && w[i] != w[i + 1] {
      var i :| 0 <= i < |w| - 1 && w[i] != w[i + 1];
      if w[i] { assert w[i] && !w[i + 1]; } else { assert !w[i] && w[i + 1]; }
    }
  }

  /** The blink history after detect_blink sees `lm`: unchanged when an eye
      is missing, otherwise the deque with this frame's closedness appended. */
  function Observe(history: seq<bool>, lm: Landmarks): (h: seq<bool>)
    ensures |history| <= BlinkFrames ==> |h| <= BlinkFrames
    ensures |h| <= |history| + 1
    ensures EyesPresent(lm) ==> |h| > 0 && h[|h| - 1] == EyesClosed(lm)
    ensures !EyesPresent(lm) ==> h == history
  {
    if EyesPresent(lm) then Window(history, EyesClosed(lm), BlinkFrames) else history
  }

  /** The landmarks detect_head_pose can use: both eyes as six-point contours
      and the nose as one point. */
  predicate PoseLandmarks(lm: Landmarks) {
    lm.leftEye.Some? && lm.rightEye.Some? && lm.nose.Some? &&
    lm.leftEye.value.coords == 12 && lm.rightEye.value.coords == 12 && lm.nose.value.coords == 2
  }

  function EyeGap(lm: Landmarks): (gap: real)
    requires PoseLandmarks(lm)
  {
    lm.rightEye.value.cornerX - lm.leftEye.value.cornerX
  }

  /** Where the nose sits between the eye corners, 0 at the left one. */
  function PoseRatio(lm: Landmarks): (ratio: real)
    requires PoseLandmarks(lm) && EyeGap(lm) != 0.0
  {
    (lm.nose.value.x - lm.leftEye.value.cornerX) / EyeGap(lm)
  }

  /** detect_head_pose on x-coordinates: 'left' below 0.5 - HeadPoseThreshold,
      'right' above 0.5 + HeadPoseThreshold, 'center' otherwise and for
      missing, malformed or degenerate landmarks. */
  function DetectHeadPose(lm: Landmarks): (p: Pose)
    ensures p != Center ==> PoseLandmarks(lm) && EyeGap(lm) != 0.0
    ensures PoseLandmarks(lm) && EyeGap(lm) != 0.0 ==>
      (p == Left <==> PoseRatio(lm) < 0.5 - HeadPoseThreshold) &&
      (p == Right <==> PoseRatio(lm) > 0.5 + HeadPoseThreshold)
  {
    if lm.leftEye.None? || lm.rightEye.None? || lm.nose.None? then Center
    else if lm.leftEye.value.coords != 12 || lm.rightEye.value.coords != 12 || lm.nose.value.coords != 2 then Center
    else if EyeGap(lm) == 0.0 then Center
    else if PoseRatio(lm) < 0.5 - HeadPoseThreshold then Left
    else if PoseRatio(lm) > 0.5 + HeadPoseThreshold then Right
    else Center
  }

  /** What detect_head_pose does as written: it subtracts whole [x, y] points,
      so `eye_distance == 0` is a two-element array and `if` on it raises. */
  datatype PoseOutcome = Returns(pose: Pose) | RaisesValueError

  function DetectHeadPoseAsWritten(lm: Landmarks): (o: PoseOutcome)
    ensures o.Returns? ==> o.pose == Center
    ensures o == RaisesValueError <==> PoseLandmarks(lm)
  {
    if lm.leftEye.None? || lm.rightEye.None? || lm.nose.None? then Returns(Center)
    else if lm.leftEye.value.coords != 12 || lm.rightEye.value.coords != 12 || lm.nose.value.coords != 2 then Returns(Center)
    else RaisesValueError
  }

  /** A face turned left: the code as written raises, the x-coordinate
      version answers Left. */
  lemma HeadPoseAsWrittenRaisesOnTurnedFace()
    ensures var eye := EyeContour(12, 100.0, 4.0, 4.0, 20.0);
      var lm := Landmarks(Some(eye), Some(eye.(cornerX := 140.0)), Some(Nose(2, 90.0)));
      DetectHeadPoseAsWritten(lm) == RaisesValueError && DetectHeadPose(lm) == Left
  {
  }

  /** Every field of the detector: the abstract state its methods change. */
  datatype State = State(
    blinkHistory: seq<bool>,
    challengeActive: bool,
    currentChallenge: Option<Challenge>,
    challengeStartTime: Option<real>,
    challengePassed: bool,
    blinkCounter: nat,
    failedAttempts: nat)

  /** The state __init__ and reset establish. */
  const InitialState: State := State([], false, None, None, false, 0, 0)

  /** The deque never outgrows its maxlen, and an active challenge has a
      start time (check_timeout asserts it). */
  predicate Consistent(s: State) {
    |s.blinkHistory| <= BlinkFrames && (s.challengeActive ==> s.challengeStartTime.Some?)
  }

  /** A new state and the boolean a step returns. */
  datatype Outcome = Outcome(state: State, result: bool)

  /** A new state and the (success, message) pair verify_challenge returns. */
  datatype Verification = Verification(state: State, success: bool, message: Message)

  /** start_challenge: the chosen challenge becomes active and unpassed, with
      a fresh window; failed attempts are kept. */
  function StartStep(s: State, choice: Challenge, now: real): (t: State)
    ensures Consistent(t)
    ensures t.challengeActive && !t.challengePassed && t.currentChallenge == Some(choice)
    ensures t.challengeStartTime == Some(now) && t.blinkHistory == [] && t.blinkCounter == 0
    ensures t.failedAttempts == s.failedAttempts
  {
    s.(currentChallenge := Some(choice), challengeActive := true, challengeStartTime := Some(now),
       challengePassed := false, blinkHistory := [], blinkCounter := 0)
  }

  /** check_timeout: an active challenge older than the timeout is deactivated. */
  function TimeoutStep(s: State, now: real): (r: Outcome)
    requires Consistent(s)
    ensures Consistent(r.state)
    ensures r.result <==> s.challengeActive && now - s.challengeStartTime.value > LivenessChallengeTimeout
    ensures r.state == s.(challengeActive := s.challengeActive && !r.result)
  {
    if !s.challengeActive then Outcome(s, false)
    else if now - s.challengeStartTime.value > LivenessChallengeTimeout then Outcome(s.(challengeActive := false), true)
    else Outcome(s, false)
  }

  /** detect_blink: the frame joins the window; a blink is reported, and
      counted, when the window then shows both a closed and an open frame. */
  function BlinkStep(s: State, lm: Landmarks): (r: Outcome)
    ensures Consistent(s) ==> Consistent(r.state)
    ensures r.state.blinkHistory == Observe(s.blinkHistory, lm)
    ensures r.result <==> EyesPresent(lm) && IsBlink(r.state.blinkHistory)
    ensures |r.state.blinkHistory| < BlinkFrames ==> !r.result
    ensures r.state.blinkCounter == s.blinkCounter + (if r.result then 1 else 0)
    ensures r.state == s.(blinkHistory := r.state.blinkHistory, blinkCounter := r.state.blinkCounter)
  {
    var h := Observe(s.blinkHistory, lm);
    var blinked := EyesPresent(lm) && IsBlink(h);
    Outcome(s.(blinkHistory := h, blinkCounter := s.blinkCounter + if blinked then 1 else 0), blinked)
  }

  /** The challenge-specific part of verify_challenge that runs after the
      timeout check, before the failure count is updated. */
  function ChallengeCheck(s: State, timeout: Outcome, lm: Landmarks, now: real): (v: Verification)
    requires Consistent(s) && s.challengeActive && timeout == TimeoutStep(s, now)
  {
    if timeout.result then
      Verification(timeout.state.(challengeActive := false), false, TimedOut(s.currentChallenge))
    else if s.currentChallenge == Some(Blink) then
      var blink := BlinkStep(timeout.state, lm);
      if blink.result then
        Verification(blink.state.(challengePassed := true, challengeActive := false), true,
                     BlinkVerified(blink.state.blinkCounter))
      else Verification(blink.state, false, BlinkPending(Trunc(now - s.challengeStartTime.value)))
    else if s.currentChallenge == Some(LookLeft) then
      if DetectHeadPose(lm) == Left then
        Verification(timeout.state.(challengePassed := true, challengeActive := false), true, LookLeftVerified)
      else Verification(timeout.state, false, LookLeftPrompt)
    else if s.currentChallenge == Some(LookRight) then
      if DetectHeadPose(lm) == Right then
        Verification(timeout.state.(challengePassed := true, challengeActive := false), true, LookRightVerified)
      else Verification(timeout.state, false, LookRightPrompt)
    else Verification(timeout.state, false, UnknownChallenge)
  }

  /** verify_challenge: nothing to do for an inactive or passed challenge, a
      lockout after MaxFailedAttempts failures, then the timeout, then the
      challenge's own detector. A pass clears the failure count; every other
      outcome adds one failure. */
  function VerifyStep(s: State, lm: Landmarks, now: real): (v: Verification)
    requires Consistent(s)
    ensures Consistent(v.state)
    ensures !s.challengeActive || s.challengePassed ==> v == Verification(s, false, NoMessage)
    ensures s.challengeActive && !s.challengePassed && s.failedAttempts >= MaxFailedAttempts ==>
      v == Verification(s, false, MaxAttemptsReached)
    ensures s.challengeActive && !s.challengePassed && s.failedAttempts < MaxFailedAttempts ==>
      v.state.failedAttempts == (if v.success then 0 else s.failedAttempts + 1)
    ensures v.success ==> v.state.challengePassed && !v.state.challengeActive
    ensures (s.challengeActive && !s.challengePassed && s.failedAttempts < MaxFailedAttempts &&
      !(now - s.challengeStartTime.value > LivenessChallengeTimeout) && !v.success) ==>
      v.state.challengeActive && !v.state.challengePassed
    ensures v.state.currentChallenge == s.currentChallenge && v.state.challengeStartTime == s.challengeStartTime
  {
    if !s.challengeActive || s.challengePassed then Verification(s, false, NoMessage)
    else if s.failedAttempts >= MaxFailedAttempts then Verification(s, false, MaxAttemptsReached)
    else
      var v := ChallengeCheck(s, TimeoutStep(s, now), lm, now);
      v.(state := v.state.(failedAttempts := if v.success then 0 else v.state.failedAttempts + 1))
  }

  /** A running challenge past its timeout fails with the timeout message,
      is deactivated, stays unpassed and costs one attempt. */
  lemma TimeoutFailsTheChallenge(s: State, lm: Landmarks, now: real)
    requires Consistent(s) && s.challengeActive && !s.challengePassed && s.failedAttempts < MaxFailedAttempts
    requires now - s.challengeStartTime.value > LivenessChallengeTimeout
    ensures var v := VerifyStep(s, lm, now);
      !v.success && v.message == TimedOut(s.currentChallenge) &&
      v.state == s.(challengeActive := false, failedAttempts := s.failedAttempts + 1)
  {
  }

  /** Within the time limit a head-turn challenge passes exactly when the
      pose matches the requested side. */
  lemma HeadTurnPassesIffPoseMatches(s: State, lm: Landmarks, now: real)
    requires Consistent(s) && s.challengeActive && !s.challengePassed && s.failedAttempts < MaxFailedAttempts
    requires !(now - s.challengeStartTime.value > LivenessChallengeTimeout)
    ensures s.currentChallenge == Some(LookLeft) ==> (VerifyStep(s, lm, now).success <==> DetectHeadPose(lm) == Left)
    ensures s.currentChallenge == Some(LookRight) ==> (VerifyStep(s, lm, now).success <==> DetectHeadPose(lm) == Right)
  {
  }

  /** Within the time limit a blink challenge passes exactly when this frame
      completes a blink window, and the verified message carries the new count. */
  lemma BlinkPassesIffWindowBlinks(s: State, lm: Landmarks, now: real)
    requires Consistent(s) && s.challengeActive && !s.challengePassed && s.failedAttempts < MaxFailedAttempts
    requires !(now - s.challengeStartTime.value > LivenessChallengeTimeout) && s.currentChallenge == Some(Blink)
    ensures var v := VerifyStep(s, lm, now);
      (v.success <==> EyesPresent(lm) && IsBlink(Observe(s.blinkHistory, lm))) &&
      v.state.blinkHistory == Observe(s.blinkHistory, lm) &&
      (v.success ==> v.message == BlinkVerified(s.blinkCounter + 1))
  {
  }

  /** A blink challenge cannot pass before its window is full: while fewer
      than BlinkFrames - 1 frames are in the window, every verification fails. */
  lemma BlinkCannotPassBeforeWindowFills(s: State, lm: Landmarks, now: real)
    requires Consistent(s) && s.currentChallenge == Some(Blink) && |s.blinkHistory| < BlinkFrames - 1
    ensures !VerifyStep(s, lm, now).success
    ensures |VerifyStep(s, lm, now).state.blinkHistory| <= |s.blinkHistory| + 1
  {
  }

  /** Successive verify_challenge calls on the frames `lms`, all at `now`. */
  function VerifyAll(s: State, lms: seq<Landmarks>, now: real): (t: State)
    requires Consistent(s)
    ensures Consistent(t)
    decreases |lms|
  {
    if lms == [] then s else VerifyAll(VerifyStep(s, lms[0], now).state, lms[1..], now)
  }

  /** From a blink challenge whose window is not yet full, the in-time
      verifications that cannot fill it all fail and each costs an attempt,
      while the challenge keeps running. */
  lemma {:induction false} EarlyBlinkAttemptsFail(s: State, lms: seq<Landmarks>, now: real)
    requires Consistent(s) && s.challengeActive && !s.challengePassed && s.currentChallenge == Some(Blink)
    requires |s.blinkHistory| + |lms| < BlinkFrames
    requires s.failedAttempts + |lms| <= MaxFailedAttempts
    requires !(now - s.challengeStartTime.value > LivenessChallengeTimeout)
    ensures var t := VerifyAll(s, lms, now);
      t.challengeActive && !t.challengePassed && t.failedAttempts == s.failedAttempts + |lms| &&
      t.currentChallenge == s.currentChallenge && t.challengeStartTime == s.challengeStartTime
    decreases |lms|
  {
    if lms != [] {
      var v := VerifyStep(s, lms[0], now);
      BlinkCannotPassBeforeWindowFills(s, lms[0], now);
      assert !v.success;
      assert v.state.challengeActive && !v.state.challengePassed;
      assert v.state.failedAttempts == s.failedAttempts + 1;
      EarlyBlinkAttemptsFail(v.state, lms[1..], now);
    }
  }

  /** The operations a caller can apply to a detector other than reset. */
  datatype Op = StartOp(choice: Challenge, at: real) | TimeoutOp(at: real)
              | BlinkOp(lm: Landmarks) | VerifyOp(lm: Landmarks, at: real)

  function Apply(s: State, op: Op): (t: State)
    requires Consistent(s)
    ensures Consistent(t)
  {
    match op
    case StartOp(c, at) => StartStep(s, c, at)
    case TimeoutOp(at) => TimeoutStep(s, at).state
    case BlinkOp(lm) => BlinkStep(s, lm).state
    case VerifyOp(lm, at) => VerifyStep(s, lm, at).state
  }

  function Run(s: State, ops: seq<Op>): (t: State)
    requires Consistent(s)
    ensures Consistent(t)
    decreases |ops|
  {
    if ops == [] then s else Run(Apply(s, ops[0]), ops[1..])
  }

  /** Once an attempt count reaches the lockout, no sequence of operations
      other than reset changes it: only reset lifts the lockout. */
  lemma {:induction false} LockoutOnlyResetLifts(s: State, ops: seq<Op>)
    requires Consistent(s) && s.failedAttempts >= MaxFailedAttempts
    ensures Run(s, ops).failedAttempts == s.failedAttempts
    decreases |ops|
  {
    if ops != [] {
      var t := Apply(s, ops[0]);
      assert t.failedAttempts == s.failedAttempts;
      LockoutOnlyResetLifts(t, ops[1..]);
    }
  }

  class LivenessDetector {
    /** The last BlinkFrames eyes-closed readings (a deque with maxlen). */
    var blinkHistory: seq<bool>
    var challengeActive: bool
    var currentChallenge: Option<Challenge>
    var challengeStartTime: Option<real>
    var challengePassed: bool
    var blinkCounter: nat
    var failedAttempts: nat

    function Snapshot(): State
      reads this
    {
      State(blinkHistory, challengeActive, currentChallenge, challengeStartTime,
            challengePassed, blinkCounter, failedAttempts)
    }

    ghost predicate Valid()
      reads this
    {
      Consistent(Snapshot())
    }

    constructor ()
      ensures Valid() && Snapshot() == InitialState
    {
      blinkHistory := [];
      challengeActive := false;
      currentChallenge := None;
      challengeStartTime := None;
      challengePassed := false;
      blinkCounter := 0;
      failedAttempts := 0;
    }

    /** start_challenge: `choice` is what random.choice picked and `now` the clock. */
    method StartChallenge(choice: Challenge, now: real) returns (c: Challenge)
      requires Valid()
      modifies this
      ensures Valid() && c == choice
      ensures Snapshot() == StartStep(old(Snapshot()), choice, now)
    {
      currentChallenge := Some(choice);
      challengeActive := true;
      challengeStartTime := Some(now);
      challengePassed := false;
      blinkHistory := [];
      blinkCounter := 0;
      return currentChallenge.value;
    }

    method CheckTimeout(now: real) returns (timedOut: bool)
      requires Valid()
      modifies this
      ensures Valid()
      ensures Snapshot() == TimeoutStep(old(Snapshot()), now).state
      ensures timedOut == TimeoutStep(old(Snapshot()), now).result
    {
      if !challengeActive {
        return false;
      }
      var elapsed := now - challengeStartTime.value;
      if elapsed > LivenessChallengeTimeout {
        challengeActive := false;
        return true;
      }
      return false;
    }

    method DetectBlink(lm: Landmarks) returns (blinked: bool)
      requires Valid()
      modifies this
      ensures Valid()
      ensures Snapshot() == BlinkStep(old(Snapshot()), lm).state
      ensures blinked == BlinkStep(old(Snapshot()), lm).result
    {
      if !EyesPresent(lm) {
        return false;
      }
      var eyesClosed := EyesClosed(lm);
      blinkHistory := Window(blinkHistory, eyesClosed, BlinkFrames);
      if |blinkHistory| == BlinkFrames {
        var hasClosed := true in blinkHistory;
        var hasOpen := false in blinkHistory;
        blinked := hasClosed && hasOpen;
        if blinked {
          blinkCounter := blinkCounter + 1;
        }
        return blinked;
      }
      return false;
    }

    method VerifyChallenge(lm: Landmarks, now: real) returns (success: bool, message: Message)
      requires Valid()
      modifies this
      ensures Valid()
      ensures Verification(Snapshot(), success, message) == VerifyStep(old(Snapshot()), lm, now)
    {
      if !challengeActive || challengePassed {
        return false, NoMessage;
      }
      if failedAttempts >= MaxFailedAttempts {
        return false, MaxAttemptsReached;
      }
      ghost var s := Snapshot();
      success, message := false, NoMessage;
      var timedOut := CheckTimeout(now);
      ghost var timeout := TimeoutStep(s, now);
      if timedOut {
        challengeActive := false;
        success := false;
        message := TimedOut(currentChallenge);
      } else if currentChallenge == Some(Blink) {
        var blinked := DetectBlink(lm);
        if blinked {
          challengePassed := true;
          challengeActive := false;
          success := true;
          message := BlinkVerified(blinkCounter);
        } else {
          var elapsed := Trunc(now - challengeStartTime.value);
          success := false;
          message := BlinkPending(elapsed);
        }
      } else if currentChallenge == Some(LookLeft) {
        var pose := DetectHeadPose(lm);
        if pose == Left {
          challengePassed := true;
          challengeActive := false;
          success := true;
          message := LookLeftVerified;
        } else {
          success := false;
          message := LookLeftPrompt;
        }
      } else if currentChallenge == Some(LookRight) {
        var pose := DetectHeadPose(lm);
        if pose == Right {
          challengePassed := true;
          challengeActive := false;
          success := true;
          message := LookRightVerified;
        } else {
          success := false;
          message := LookRightPrompt;
        }
      } else {
        success := false;
        message := UnknownChallenge;
      }
      assert Verification(Snapshot(), success, message) == ChallengeCheck(s, timeout, lm, now);
      if success {
        failedAttempts := 0;
      } else {
        failedAttempts := failedAttempts + 1;
      }
    }

    /** reset: back to the state __init__ builds, whatever the state was. */
    method Reset()
      modifies this
      ensures Valid() && Snapshot() == InitialState
    {
      challengeActive := false;
      currentChallenge := None;
      challengeStartTime := None;
      challengePassed := false;
      blinkHistory := [];
      blinkCounter := 0;
      failedAttempts := 0;
    }
  }

  /** Five failed look-left attempts lock the detector: the sixth attempt is
      refused even with a face turned left. Reset lifts the lockout, after
      which a new challenge passes. */
  method LockoutUntilReset(straight: Landmarks, turned: Landmarks, t: real)
    returns (locked: Message, afterReset: bool)
    requires DetectHeadPose(straight) != Left && DetectHeadPose(turned) == Left
    ensures locked == MaxAttemptsReached
    ensures afterReset
  {
    var d := new LivenessDetector();
    var started := d.StartChallenge(LookLeft, t);
    var i := 0;
    while i < MaxFailedAttempts
      invariant 0 <= i <= MaxFailedAttempts
      invariant d.Valid() && d.challengeActive && !d.challengePassed
      invariant d.currentChallenge == Some(LookLeft) && d.challengeStartTime == Some(t)
      invariant d.failedAttempts == i
    {
      var ok, prompt := d.VerifyChallenge(straight, t);
      i := i + 1;
    }
    var refused;
    refused, locked := d.VerifyChallenge(turned, t);
    d.Reset();
    var restarted := d.StartChallenge(LookLeft, t);
    var verified;
    afterReset, verified := d.VerifyChallenge(turned, t);
  }
}
