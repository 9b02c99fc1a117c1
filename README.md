# Face attendance kiosk: decision logic in Dafny

This project models the decision logic of a face-based attendance kiosk and
proves properties of it. The kiosk's camera loop detects a face. It checks
that the person means to check in, matches the face against enrolled
templates and records an IN/OUT punch with a cooldown. Five pieces are
modelled:

- **Attendance toggle** (`attendance.dfy`, module `Attendance`).
  `AttendanceManager` keeps a per-name phase (IN/OUT) and last-action time,
  enforces the cooldown and appends one `(Name, Time, Action)` row per
  accepted punch. On start-up it rebuilds the phases by replaying the log.
  The invariant `Valid()` says the phases are always exactly what a replay
  of the log gives.
- **Intent gate** (`detector.dfy`, module `Detector`). `VerifyIntent` is a
  pure chain of checks: confidence, region of interest, face width, then
  gaze. The first check that fails decides the message. A separate
  reference definition (`Gates` and `FirstFailure`) is proved equal to it.
- **Matching and enrolment** (`recognizer.dfy`, module `Recognizer`).
  `Identify` is a linear argmin with sentinel 100, strict `<` and a
  threshold. `FaceRecognizer.RegisterFace` stores the dimension-wise mean of
  the samples, or refuses and leaves the store unchanged.
- **Liveness challenge** (`liveness.dfy`, module `Liveness`). The
  `LivenessDetector` class is a blink / look-left / look-right state
  machine. It has a bounded blink window, a timeout, and a lockout after
  five failed attempts that only `Reset` lifts. Each method is specified by
  a pure step function on a `State` value (`StartStep`, `TimeoutStep`,
  `BlinkStep`, `VerifyStep`); the properties are proved about those.
- **Duplicate-name check** (`hashing.dfy`, module `Hashing`). `NameExists`
  looks for a record among the store's values whose name matches exactly.

`config.dfy` holds the constants of `src/config.py` (module `SrcConfig`) and
of `core/config.py` (module `CoreConfig`) with their values. `numeric.dfy`
holds `Option` and `Trunc` (Python's `int()` on a number, truncating toward
zero).

Several things that are inputs or side effects in the source become plain
values here:

- Clocks and randomness are parameters: `now`, and the challenge choice.
- Time is whole seconds in the attendance model and real seconds in the
  liveness model.
- Embedding distances are given as `(name, dist)` pairs in the store's
  iteration order.
- Eye-contour point distances are given as reals, because their norms use
  `sqrt`.
- The log file is a `seq<Row>`. The template store is a `map`.
- Scores, ratios and embeddings are exact `real`s rather than floats.

Behaviour of the code worth stating explicitly:

- The attendance log is append-only, one row per event, with columns
  `Name, Time, Action`. It is not the per-day `Name, Date, Punch In Time,
  Punch Out Time` schema of `CSV_COLUMNS` (core/config.py:43), and start-up
  replay reads each name's last `Action`.
- The gaze gate accepts a ratio exactly equal to either bound, because the
  code rejects only with strict `<` and `>`.
- `register_face` refuses a name that is already a key of the store. It does
  not call the duplicate-name check.
- `start_challenge` does not reset `failed_attempts`. A timeout only
  deactivates the challenge; there is no separate "failed" state.

## Model

| member | source | states |
|---|---|---|
| `Detector.Roi` | src/detector.py:34-37 | The region of interest lies inside the frame. Each bound is the truncation of 30% / 70% of the width and 20% / 80% of the height. |
| `Detector.VerifyIntent` | src/detector.py:15-60 | A score below the confidence floor gives `(False, "Low Conf")` whatever the box and landmarks are. Acceptance happens iff all four gates pass, and the message is `"Verified"` exactly then. An off-centre box gives "Step in Box". A narrow box inside the region gives "Come Closer". Equal eye x-coordinates give "Angle Err" before any division. Once the earlier gates pass, the ratio is rejected only strictly outside `[0.35, 0.65]`, so both bounds are accepted. |
| `Detector.FirstFailure` | src/detector.py:26-60 | Reference semantics of a short-circuiting chain: it accepts iff every gate passes. Otherwise the message is that of a failing gate all of whose predecessors passed. |
| `Detector.VerifyIntentIsFirstFailingGate` | src/detector.py:26-60 | `VerifyIntent` equals the first failure of the gates in the order confidence, region, size, eye separation, gaze. |
| `Hashing.NameExists` | core/hashing.py:26-33 | True iff some key holds a record whose `name` equals the query exactly. |
| `Hashing.EmptyStoreHasNoName` | core/hashing.py:30-33 | An empty store holds no name. |
| `Hashing.KeysAreIgnored` | core/hashing.py:30-31 | Two stores with the same values give the same answer, whatever their keys. |
| `Hashing.InsertedRecordExists` | core/hashing.py:30-32 | After a record with name n is stored under any key, n exists. |
| `Hashing.InsertedLegacyIsInvisible` | core/hashing.py:31 | Storing a legacy (non-record) value under a new key changes no answer. |
| `Hashing.OnlyTheNameFieldMatches` | core/hashing.py:30-31 | A record stored under the query as key, but with another name, does not match. A record with the query as name does match. |
| `Recognizer.Identify` | src/recognizer.py:89-110 | An empty store gives `("Unknown", 100)`. The distance returned is the minimum of 100 and all entry distances. Above the threshold the name is "Unknown". At or below it, the name is that of the first entry in iteration order whose distance equals the minimum. |
| `Recognizer.IdentifyAtThreshold` | src/recognizer.py:103-110 | One enrolled user at distance 0.59 is recognised as `("Alice", 0.59)`. At 0.61 the result is `("Unknown", 0.61)`. |
| `Recognizer.MeanOfIdenticalSamples` | src/recognizer.py:127-130 | The mean of N identical samples is that sample. |
| `Recognizer.MeanWithinBounds` | src/recognizer.py:127-130 | Each dimension of the mean lies between the bounds of that dimension over the samples. |
| `Recognizer.FaceRecognizer.RegisterFace` | src/recognizer.py:112-141 | Empty samples, an existing key, or samples of different dimensions (the concatenation error) give False and leave the store unchanged. Otherwise the result is True, the name maps to the dimension-wise mean, and every other key keeps its value. |
| `Attendance.ReplaySnoc` | src/attendance.py:19-22 | Replaying one more row changes only that row's name, to the phase its action gives. |
| `Attendance.ReplayFollowsLastRow` | src/attendance.py:19-22 | After a replay, a name has a phase iff it has a row. It is IN iff its last row is a "PUNCH IN". |
| `Attendance.AttendanceManager.constructor` | src/attendance.py:7-10 | Starting from empty maps and loading the log gives the replayed phases, seed time "load time minus one day" for every logged name, and the invariant. |
| `Attendance.AttendanceManager.LoadLogs` | src/attendance.py:12-26 | Each logged name's phase is overwritten by the replay and its time set to one day before load time. Other names are kept, the log is unchanged, and the invariant is preserved. |
| `Attendance.AttendanceManager.ProcessPunch` | src/attendance.py:30-57 | A first-sight name counts as OUT with a last time 365 days back. Within the cooldown the result is `Wait(300 - elapsed)`, with remaining in `[1, 300]` when the clock has not gone back, and phases, times and log are unchanged. Otherwise the action is PUNCH IN iff the prior phase was OUT. The phase becomes IN iff the action is PUNCH IN, the time becomes `now`, exactly one row `(name, now, action)` is appended, and no other name is touched. The invariant "phases = replay of the log" is kept. |
| `Attendance.AttendanceManager.LogToCsv` | src/attendance.py:59-65 | Appends exactly one row and changes neither map. |
| `Attendance.PunchInWaitPunchOut` | src/attendance.py:35-57 | On a fresh kiosk, the first punch is PUNCH IN and a punch 10 s later is `Wait(290)`. A punch a full cooldown after the first is PUNCH OUT, and the log then holds exactly those two rows. |
| `Attendance.PunchAfterRestart` | src/attendance.py:19-26 | After a restart over a log whose last row for a name is PUNCH IN, that name's first punch is not held by the cooldown and is PUNCH OUT. |
| `Liveness.EyeAspectRatio` | src/liveness.py:66-85 | A contour that is not 12 coordinates, or has no positive width, gives 1.0. Otherwise the ratio times twice the width is the sum of the two heights, so no division by zero occurs. |
| `Liveness.MalformedEyeReadsOpen` | src/liveness.py:110-115 | If either eye is not a six-point contour, the pair never reads as closed. |
| `Liveness.Window` | src/liveness.py:118 | Appending to the bounded deque keeps the newest `min(len + 1, cap)` frames, in order, with the new frame last. |
| `Liveness.BlinkIsATransition` | src/liveness.py:120-126 | A window is a blink iff it is full and the eyes change from closed to open, or from open to closed, between two neighbouring frames. This is the pattern the source describes, and it is equivalent to the any/not-all test it computes. |
| `Liveness.Observe` | src/liveness.py:103-118 | The history stays within BLINK_FRAMES and grows by at most one frame. With both eyes present it ends with this frame's closedness. With an eye missing it is unchanged, because detect_blink returns before appending. |
| `Liveness.DetectHeadPose` | src/liveness.py:212-243 | Left or Right only for well-formed landmarks with distinct eye x-coordinates. Left iff the ratio is below `0.5 - HEAD_POSE_THRESHOLD`, Right iff it is above `0.5 + HEAD_POSE_THRESHOLD`. |
| `Liveness.DetectHeadPoseAsWritten` | src/liveness.py:223-232 | As written: "center" for missing or malformed landmarks. Raises a ValueError exactly for well-formed ones. |
| `Liveness.HeadPoseAsWrittenRaisesOnTurnedFace` | src/liveness.py:231-232 | For one concrete face turned left, the code as written raises while the x-coordinate version answers Left. |
| `Liveness.StartStep` | src/liveness.py:28-36 | Starting a challenge activates the chosen one, unpassed, stamped with `now`, with an empty window and a zero blink counter. `failed_attempts` is kept, and the state stays consistent. |
| `Liveness.TimeoutStep` | src/liveness.py:38-47 | True iff the challenge is active and older than the timeout. The only change is that the challenge is then deactivated. |
| `Liveness.BlinkStep` | src/liveness.py:88-133 | The window becomes `Observe(old window, landmarks)`. The result is True iff both eyes are present and the window is a blink, so it is False while the window is not full. The blink counter grows by 1 exactly then, and no other field changes. |
| `Liveness.VerifyStep` | src/liveness.py:245-309 | An inactive or passed challenge gives `(False, "")` and no change. With 5 or more failures the result is the lockout message and no change. Otherwise a pass resets failures to 0 and any other outcome adds exactly one. A pass leaves the challenge passed and inactive. A failed attempt within the time limit leaves the challenge active and unpassed, so it can be retried. The challenge and its start time never change, and consistency is preserved. |
| `Liveness.TimeoutFailsTheChallenge` | src/liveness.py:259-263 | Past the timeout, verification fails with the timeout message naming the challenge. The challenge is deactivated, one failure is added, and nothing else changes. |
| `Liveness.HeadTurnPassesIffPoseMatches` | src/liveness.py:278-298 | Within the time limit, a look-left challenge passes iff the pose is left, and a look-right challenge iff it is right. |
| `Liveness.BlinkPassesIffWindowBlinks` | src/liveness.py:266-276 | Within the time limit, a blink challenge passes iff both eyes are present and the updated window is a blink. The window is always updated, and a pass reports the incremented count. |
| `Liveness.BlinkCannotPassBeforeWindowFills` | src/liveness.py:266-276 | While the window holds fewer than BLINK_FRAMES - 1 frames, a blink verification fails whatever the frame, and the window grows by at most one. |
| `Liveness.EarlyBlinkAttemptsFail` | src/liveness.py:266-307 | From a running blink challenge whose window cannot fill, each in-time verification fails and adds one failed attempt. The challenge stays active and unpassed, with the same challenge and start time. So a fresh blink challenge spends BLINK_FRAMES - 1 attempts before it can pass. |
| `Liveness.LockoutOnlyResetLifts` | src/liveness.py:253-254 | Once failures reach 5, no sequence of start, timeout, blink and verify operations changes the failure count. Only reset lifts the lockout. |
| `Liveness.LivenessDetector.constructor` | src/liveness.py:15-22 | Builds the initial state: empty window, inactive, no challenge, no start time, not passed, zero counters. |
| `Liveness.LivenessDetector.StartChallenge` | src/liveness.py:28-36 | The new state is `StartStep` of the old one, and the chosen challenge is returned. |
| `Liveness.LivenessDetector.CheckTimeout` | src/liveness.py:38-47 | The new state and the result are those of `TimeoutStep`. |
| `Liveness.LivenessDetector.DetectBlink` | src/liveness.py:88-133 | The new state and the result are those of `BlinkStep`. |
| `Liveness.LivenessDetector.VerifyChallenge` | src/liveness.py:245-309 | The new state, the success flag and the message are those of `VerifyStep`. |
| `Liveness.LivenessDetector.Reset` | src/liveness.py:311-319 | From any state, restores the initial state, so a second reset changes nothing. |
| `Liveness.LockoutUntilReset` | src/liveness.py:253-254 | After five failed attempts, a sixth is refused even with a correct pose. After `Reset` and a new challenge, the same pose passes. |

## Left out

- `FaceDetector.detect` (RetinaFace) and `FaceRecognizer.get_embedding` (rotation, crop, resize, FaceNet inference) are foreign calls and image numerics. Faces and embeddings are inputs.
- Model loading in `FaceRecognizer.__init__`, and `load_db` / `save_db` (`torch.load` / `torch.save`), are left out. The constructor takes the store that loading produced.
- `Recognizer.FaceRecognizer.RegisterFace`: a `save_db` failure after line 133 would leave the new entry stored while returning False. File I/O is not modelled, so this case is absent.
- `Recognizer.FaceRecognizer.RegisterFace`: the only `torch.cat` failure modelled is samples of differing dimension. Other exceptions, such as a sample that is not a tensor, cannot arise with typed samples.
- `Recognizer.Identify`: the Euclidean norm and the averaging of list-valued entries (src/recognizer.py:98-102) are not modelled, because they are float numerics. Each entry's distance is an input.
- `Liveness.EyeAspectRatio`: the three point norms (src/liveness.py:74-80) use `sqrt`, so they are inputs. Only the length guard and the zero-width guard are modelled as code.
- `Attendance.AttendanceManager.ProcessPunch`: time is whole seconds. The `int()` truncation of a fractional remaining time (src/attendance.py:43) therefore never comes into play, and `strftime` formatting is left out: a row keeps the integer instant.
- `Attendance.AttendanceManager.LoadLogs`: the missing-file, empty-file and unreadable-file paths (src/attendance.py:14-17, 27-28) become an empty or given row sequence. Exceptions are not modelled.
- `Attendance.AttendanceManager.LoadLogs`: the source calls `datetime.now()` once per row (src/attendance.py:26), so rows can get slightly different seed times. The model reads one `now` for all rows.
- `Liveness.VerifyStep`: the source reads the clock twice, in `check_timeout` and for the blink message. The model reads one `now` for both.
- Message texts such as "Wait 42s", "Blink (3s)" and "Timeout! (Challenge: blink)" are datatype constructors carrying the formatted values. They are not rendered strings.
- `get_random_challenge` (`random.choice`) is a parameter of `StartChallenge`.
- `hash_name` and `hash_embedding` wrap hashlib and are not modelled. Store keys are arbitrary strings.
- Drawing helpers are left out because they only render: `draw_roi` (only its rectangle computation, shared with `verify_intent`, is modelled as `Detector.Roi`), `draw_eye_landmarks` and `get_eye_metrics`.
- `main.py` (camera loop, argparse, UI) is left out.
- Float behaviour: scores, ratios, means and times are exact reals, so float rounding (for example in `w * (0.5 - 0.2)`) is not modelled.

## Findings

| source | as written | input that shows it | evidently intended | confidence | as-written member | corrected member |
|---|---|---|---|---|---|---|
| src/liveness.py:227-232 | `left_eye` and `right_eye` are whole `[x, y]` points, so `eye_distance == 0` is a two-element boolean array. `if` on it raises ValueError for every well-formed landmark set, so no head-turn challenge can pass. | Both eyes as 12-coordinate contours with corners at x = 100 and x = 140, nose at x = 90 (`HeadPoseAsWrittenRaisesOnTurnedFace`) | Compare x-coordinates, as src/detector.py:49-56 does | not executed; high | `Liveness.DetectHeadPoseAsWritten` | `Liveness.DetectHeadPose` |
