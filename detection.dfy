/**
  The per-frame attentiveness update of the proctoring detector, stated as a
  function of the previous status and one frame's observations.

  The class in attentiveness.dfy performs the update step by step, as the
  service does; this module says, field by field, what the outcome of one
  step is, and `Run` folds it over a sequence of frames.
 */
module Detection {
  import opened Wrappers
  import opened Labels

  // Thresholds of the detector.
  const EYE_AR_THRESH: real := 0.25
  const EYE_AR_CONSEC_FRAMES: nat := 10
  const MOUTH_AR_THRESH: real := 0.7
  const MOUTH_AR_CONSEC_FRAMES: nat := 10
  const HEAD_POSE_YAW_THRESH: real := 15.0
  const HEAD_POSE_PITCH_THRESH: real := 15.0
  const GAZE_AWAY_CONSEC_FRAMES: nat := 30
  const ABSENCE_TIME_THRESHOLD: real := 5.0

  /** What the landmark and head-pose steps yield for the primary face. */
  datatype Measures = Measures(ear: real, mar: real, yaw: real, pitch: real)

  /**
    One frame's observations: how many faces the detector found, the primary
    face's measures (None when no shape predictor is loaded), the wall-clock
    time, and the simulated system-level event, if the one-in-ten-thousand
    draw fired on this frame, with the message it picked.
   */
  datatype Frame = Frame(faceCount: nat, landmarks: Option<Measures>, now: real, injected: Option<SystemMessage>)

  /** Everything the detector keeps between frames. */
  datatype Status = Status(
    faceCount: nat,
    sleeping: SleepStatus,
    focusScore: real,
    unauthorized: Activity,
    copyAttempt: CopyStatus,
    proctoringAlert: ProctorAlert,
    eyeCounter: nat,
    yawnCounter: nat,
    headPoseAwayCounter: nat,
    lastPersonSeen: real)

  /** The state at start-up; `startTime` is the clock reading when the service loads. */
  function Initial(startTime: real): (s: Status)
    ensures Consistent(s)
    ensures s.lastPersonSeen == startTime
  {
    Status(0, NoPersonDetected, 0.0, NoneDetected, NoCopyAttempt, NoViolations, 0, 0, 0, startTime)
  }

  /** The new state and the alert tag of one frame. */
  datatype Outcome = Outcome(next: Status, alert: Option<AlertType>)

  function Abs(x: real): real {
    if x < 0.0 then -x else x
  }

  function Min(a: real, b: real): real {
    if a <= b then a else b
  }

  function Max(a: real, b: real): real {
    if a >= b then a else b
  }

  predicate EyesClosed(ear: real) {
    ear < EYE_AR_THRESH
  }

  predicate MouthOpen(mar: real) {
    mar > MOUTH_AR_THRESH
  }

  predicate HeadTurnedAway(yaw: real, pitch: real) {
    Abs(yaw) > HEAD_POSE_YAW_THRESH || Abs(pitch) > HEAD_POSE_PITCH_THRESH
  }

  /** A consecutive-frame counter: one more while its condition holds, zero as soon as it does not. */
  function Debounce(count: nat, holds: bool): nat {
    if holds then count + 1 else 0
  }

  /** A frame on which the primary face is measured. */
  predicate Analysed(f: Frame) {
    f.faceCount > 0 && f.landmarks.Some?
  }

  predicate CopyFires(f: Frame) {
    f.faceCount > 1
  }

  predicate DrowsinessFires(s: Status, f: Frame) {
    Analysed(f) && EyesClosed(f.landmarks.value.ear) && s.eyeCounter + 1 >= EYE_AR_CONSEC_FRAMES
  }

  predicate YawnFires(s: Status, f: Frame) {
    Analysed(f) && MouthOpen(f.landmarks.value.mar) && s.yawnCounter + 1 >= MOUTH_AR_CONSEC_FRAMES
  }

  predicate GazeFires(s: Status, f: Frame) {
    Analysed(f) && HeadTurnedAway(f.landmarks.value.yaw, f.landmarks.value.pitch) && s.headPoseAwayCounter + 1 >= GAZE_AWAY_CONSEC_FRAMES
  }

  function Elapsed(s: Status, f: Frame): real {
    f.now - s.lastPersonSeen
  }

  predicate AbsenceFires(s: Status, f: Frame) {
    f.faceCount == 0 && Elapsed(s, f) > ABSENCE_TIME_THRESHOLD
  }

  /** Every condition that raised an alert on this frame, most important first. */
  function Candidates(s: Status, f: Frame): (c: seq<AlertType>)
    ensures forall i, j :: 0 <= i < j < |c| ==> c[i].Rank() < c[j].Rank()
  {
    (if CopyFires(f) then [CopyAttempt] else [])
    + (if DrowsinessFires(s, f) then [Drowsiness] else [])
    + (if YawnFires(s, f) then [Yawn] else [])
    + (if GazeFires(s, f) then [GazeViolation] else [])
    + (if AbsenceFires(s, f) then [AbsentViolation] else [])
    + (if f.injected.Some? then [SystemViolation] else [])
  }

  /** The frame's alert tag: the most important condition raised, if any. */
  function AlertOf(s: Status, f: Frame): (a: Option<AlertType>)
    ensures a == None <==> Candidates(s, f) == []
    ensures a.Some? ==> a.value in Candidates(s, f)
  {
    var c := Candidates(s, f);
    if c == [] then None else Some(c[0])
  }

  function NextEyeCounter(s: Status, f: Frame): (n: nat)
    ensures n <= s.eyeCounter + 1
    ensures f.faceCount == 0 ==> n == 0
    ensures Analysed(f) ==> (n == 0 <==> !EyesClosed(f.landmarks.value.ear))
  {
    if f.faceCount == 0 then 0
    else if f.landmarks.None? then s.eyeCounter
    else Debounce(s.eyeCounter, EyesClosed(f.landmarks.value.ear))
  }

  function NextYawnCounter(s: Status, f: Frame): (n: nat)
    ensures n <= s.yawnCounter + 1
    ensures f.faceCount == 0 ==> n == 0
    ensures Analysed(f) ==> (n == 0 <==> !MouthOpen(f.landmarks.value.mar))
  {
    if f.faceCount == 0 then 0
    else if f.landmarks.None? then s.yawnCounter
    else Debounce(s.yawnCounter, MouthOpen(f.landmarks.value.mar))
  }

  function NextHeadPoseCounter(s: Status, f: Frame): (n: nat)
    ensures n <= s.headPoseAwayCounter + 1
    ensures f.faceCount == 0 ==> n == 0
    ensures Analysed(f) ==> (n == 0 <==> !HeadTurnedAway(f.landmarks.value.yaw, f.landmarks.value.pitch))
  {
    if f.faceCount == 0 then 0
    else if f.landmarks.None? then s.headPoseAwayCounter
    else Debounce(s.headPoseAwayCounter, HeadTurnedAway(f.landmarks.value.yaw, f.landmarks.value.pitch))
  }

  /** Up to 50 points for open eyes. */
  function EyeFocus(ear: real): real {
    var normalizedEar := if EYE_AR_THRESH > 0.0 then Min(1.0, ear / EYE_AR_THRESH) else 1.0;
    normalizedEar * 50.0
  }

  /** Up to 50 points for a closed mouth. */
  function MouthFocus(mar: real): real {
    var normalizedMar := if MOUTH_AR_THRESH > 0.0 then Min(1.0, mar / MOUTH_AR_THRESH) else 1.0;
    (1.0 - normalizedMar) * 50.0
  }

  /** Up to 50 points taken off for looking away, in proportion to the gaze counter. */
  function GazePenalty(headPoseAwayCounter: nat): real {
    Min(1.0, headPoseAwayCounter as real / GAZE_AWAY_CONSEC_FRAMES as real) * 50.0
  }

  /** The focus score, capped to [0, 100]. */
  function FocusScore(ear: real, mar: real, headPoseAwayCounter: nat): (score: real)
    ensures 0.0 <= score <= 100.0
  {
    Min(100.0, Max(0.0, EyeFocus(ear) + MouthFocus(mar) - GazePenalty(headPoseAwayCounter)))
  }

  function NextFocusScore(s: Status, f: Frame): (score: real)
    ensures 0.0 <= s.focusScore <= 100.0 ==> 0.0 <= score <= 100.0
    ensures f.faceCount == 0 ==> score == 0.0
  {
    if f.faceCount == 0 then 0.0
    else if f.landmarks.None? then s.focusScore
    else FocusScore(f.landmarks.value.ear, f.landmarks.value.mar, NextHeadPoseCounter(s, f))
  }

  /**
    The sleeping label. On an analysed frame a yawn outranks drowsiness; an
    open-eye frame says "Awake" unless the label is "Likely Sleeping", or is
    "Yawning" while the mouth is still open.
   */
  function NextSleeping(s: Status, f: Frame): (st: SleepStatus)
    ensures f.faceCount == 0 ==> st == NoPersonDetected || st == Absent
    ensures st == LikelySleeping ==> DrowsinessFires(s, f) || s.sleeping == LikelySleeping
    ensures st == YawningDetected ==> YawnFires(s, f) || s.sleeping == YawningDetected
    ensures st == Absent ==> AbsenceFires(s, f) || (f.faceCount > 0 && s.sleeping == Absent)
    ensures st == Awake ==> (Analysed(f) && !EyesClosed(f.landmarks.value.ear)) || (f.faceCount > 0 && s.sleeping == Awake)
    ensures YawnFires(s, f) ==> st == YawningDetected
    ensures DrowsinessFires(s, f) && !YawnFires(s, f) ==> st == LikelySleeping
    ensures st == NoPersonDetected ==> f.faceCount == 0 || s.sleeping == NoPersonDetected
  {
    if f.faceCount == 0 then
      (if AbsenceFires(s, f) then Absent else NoPersonDetected)
    else if f.landmarks.None? then s.sleeping
    else if YawnFires(s, f) then YawningDetected
    else if DrowsinessFires(s, f) then LikelySleeping
    else if EyesClosed(f.landmarks.value.ear) then s.sleeping
    else if s.sleeping.LikelySleeping? || (s.sleeping.YawningDetected? && MouthOpen(f.landmarks.value.mar)) then s.sleeping
    else Awake
  }

  function NextActivity(s: Status, f: Frame): (a: Activity)
    ensures a == SystemAccessViolation <==> f.injected.Some?
    ensures f.injected.None? ==> (a == LookingAway <==> GazeFires(s, f))
    ensures f.injected.None? ==> (a == NoPersonSeen <==> AbsenceFires(s, f))
  {
    if f.injected.Some? then SystemAccessViolation
    else if f.faceCount == 0 then (if AbsenceFires(s, f) then NoPersonSeen else NoneDetected)
    else if GazeFires(s, f) then LookingAway
    else NoneDetected
  }

  function NextCopyAttempt(f: Frame): (c: CopyStatus)
    ensures c == NoCopyAttempt <==> f.faceCount <= 1
    ensures c.MultiplePersons? ==> c.count == f.faceCount
  {
    if CopyFires(f) then MultiplePersons(f.faceCount) else NoCopyAttempt
  }

  /** The proctoring alert text: unlike the tag, the LAST condition raised on the frame decides it. */
  function NextProctorAlert(s: Status, f: Frame): (p: ProctorAlert)
    ensures f.injected.Some? ==> p == SystemAlert(f.injected.value)
    ensures p.SystemAlert? ==> f.injected.Some? || p == s.proctoringAlert
    ensures p == StudentAbsent ==> f.faceCount == 0
    ensures p == PotentialCheating ==> CopyFires(f) || s.proctoringAlert == PotentialCheating
    ensures p == DrowsinessDetected ==> DrowsinessFires(s, f) || s.proctoringAlert == DrowsinessDetected
    ensures p == YawnDetected ==> YawnFires(s, f) || s.proctoringAlert == YawnDetected
    ensures p == AttentionDiverted ==> GazeFires(s, f) || s.proctoringAlert == AttentionDiverted
    ensures p == NoViolations ==> f.faceCount == 0 || s.proctoringAlert == NoViolations || s.proctoringAlert == StudentAbsent
  {
    if f.injected.Some? then SystemAlert(f.injected.value)
    else if f.faceCount == 0 then
      (if AbsenceFires(s, f) || s.proctoringAlert == StudentAbsent then StudentAbsent else NoViolations)
    else if GazeFires(s, f) then AttentionDiverted
    else if YawnFires(s, f) then YawnDetected
    else if DrowsinessFires(s, f) then DrowsinessDetected
    else if CopyFires(f) then PotentialCheating
    else if s.proctoringAlert == StudentAbsent then NoViolations
    else s.proctoringAlert
  }

  /** One frame of the detector. */
  function Step(s: Status, f: Frame): (o: Outcome)
    ensures Consistent(s) ==> Consistent(o.next)
  {
    Outcome(
      Status(
        f.faceCount,
        NextSleeping(s, f),
        NextFocusScore(s, f),
        NextActivity(s, f),
        NextCopyAttempt(f),
        NextProctorAlert(s, f),
        NextEyeCounter(s, f),
        NextYawnCounter(s, f),
        NextHeadPoseCounter(s, f),
        if f.faceCount > 0 then f.now else s.lastPersonSeen),
      AlertOf(s, f))
  }

  /** The state after a sequence of frames. */
  function Run(s: Status, frames: seq<Frame>): (r: Status)
    ensures Consistent(s) ==> Consistent(r)
    decreases |frames|
  {
    if frames == [] then s
    else Step(Run(s, frames[..|frames| - 1]), frames[|frames| - 1]).next
  }

  /** The alert tag returned for frame `k` of a sequence. */
  function AlertAt(s: Status, frames: seq<Frame>, k: nat): Option<AlertType>
    requires k < |frames|
  {
    Step(Run(s, frames[..k]), frames[k]).alert
  }

  /** What holds of the state between frames. */
  ghost predicate Consistent(s: Status) {
    && 0.0 <= s.focusScore <= 100.0
    && (s.faceCount == 0 ==> s.eyeCounter == 0 && s.yawnCounter == 0 && s.headPoseAwayCounter == 0 && s.focusScore == 0.0)
    && s.copyAttempt == (if s.faceCount > 1 then MultiplePersons(s.faceCount) else NoCopyAttempt)
    && (s.unauthorized.LookingAway? ==> s.headPoseAwayCounter >= GAZE_AWAY_CONSEC_FRAMES)
    && (s.proctoringAlert == StudentAbsent ==> s.faceCount == 0)
  }

}
