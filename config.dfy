/** The constants of src/config.py that the attendance, detector and
    recognizer components read. */
module SrcConfig {
  /** Minimum detection score a face needs (RETINA_CONFIDENCE). */
  const RetinaConfidence: real := 0.90
  /** Minimum face-box width in pixels (MIN_FACE_WIDTH). */
  const MinFaceWidth: int := 80
  /** Fraction of the frame width covered by the region of interest (ROI_CENTER_PCT). */
  const RoiCenterPct: real := 0.40
  /** Gaze band for the nose ratio (GAZE_THRESHOLD_LOW / GAZE_THRESHOLD_HIGH). */
  const GazeThresholdLow: real := 0.35
  const GazeThresholdHigh: real := 0.65
  /** Largest embedding distance still accepted as a match (RECOGNITION_THRESHOLD). */
  const RecognitionThreshold: real := 0.60
  /** Debounce window between two accepted punches, in seconds (COOLDOWN_SECONDS). */
  const CooldownSeconds: int := 300
}

/** The constants of core/config.py that the liveness detector reads. */
module CoreConfig {
  /** Seconds a challenge may run before it times out (LIVENESS_CHALLENGE_TIMEOUT). */
  const LivenessChallengeTimeout: real := 5.0
  /** Eye aspect ratio below which the eyes count as closed (BLINK_THRESHOLD). */
  const BlinkThreshold: real := 0.25
  /** Length of the blink window (BLINK_FRAMES), the deque's maxlen. */
  const BlinkFrames: nat := 3
  /** Deviation of the nose ratio from 0.5 that counts as a head turn (HEAD_POSE_THRESHOLD). */
  const HeadPoseThreshold: real := 0.5
}
