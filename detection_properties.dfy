/** What one frame, and a run of frames, of the detector guarantee. */
module DetectionProperties {
  import opened Wrappers
  import opened Labels
  import opened Detection
  import AspectRatios

  /** The tag is assigned by the first condition, in priority order, that fires. */
  lemma AlertOfFirstFiring(s: Status, f: Frame)
    ensures AlertOf(s, f) ==
      if CopyFires(f) then Some(CopyAttempt)
      else if DrowsinessFires(s, f) then Some(Drowsiness)
      else if YawnFires(s, f) then Some(Yawn)
      else if GazeFires(s, f) then Some(GazeViolation)
      else if AbsenceFires(s, f) then Some(AbsentViolation)
      else if f.injected.Some? then Some(SystemViolation)
      else None
  {
  }

  /** The simulated system-level event comes last: it overrides both texts and yields the tag only to every other condition. */
  lemma SystemEventLast(s: Status, f: Frame)
    ensures NextActivity(s, f) == if f.injected.Some? then SystemAccessViolation else NextActivity(s, f.(injected := None))
    ensures NextProctorAlert(s, f) == if f.injected.Some? then SystemAlert(f.injected.value) else NextProctorAlert(s, f.(injected := None))
    ensures AlertOf(s, f) == if AlertOf(s, f.(injected := None)) == None && f.injected.Some? then Some(SystemViolation) else AlertOf(s, f.(injected := None))
  {
    AlertOfFirstFiring(s, f);
    AlertOfFirstFiring(s, f.(injected := None));
  }

  // ---------------------------------------------------------------------
  // The alert tag: first writer wins; the proctoring text: last writer wins.
  // ---------------------------------------------------------------------

  /** The candidates hold exactly the landmark-analysis conditions that fired on the frame ... */
  lemma CandidatesHoldFiredAnalysis(s: Status, f: Frame)
    ensures Drowsiness in Candidates(s, f) <==> DrowsinessFires(s, f)
    ensures Yawn in Candidates(s, f) <==> YawnFires(s, f)
    ensures GazeViolation in Candidates(s, f) <==> GazeFires(s, f)
  {
  }

  /** ... and exactly the face-count, absence and system-event conditions that fired. */
  lemma CandidatesHoldFiredFrameEvents(s: Status, f: Frame)
    ensures CopyAttempt in Candidates(s, f) <==> CopyFires(f)
    ensures AbsentViolation in Candidates(s, f) <==> AbsenceFires(s, f)
    ensures SystemViolation in Candidates(s, f) <==> f.injected.Some?
  {
  }

  /** No condition that fired outranks the tag. */
  lemma AlertIsHighestPriority(s: Status, f: Frame, b: AlertType)
    requires b in Candidates(s, f)
    ensures AlertOf(s, f).Some? && AlertOf(s, f).value.Rank() <= b.Rank()
  {
    var c := Candidates(s, f);
    var j :| 0 <= j < |c| && c[j] == b;
  }

  /** With more than one face in view the tag is always a copy attempt. */
  lemma MultipleFacesAreCopyAttempt(s: Status, f: Frame)
    requires f.faceCount > 1
    ensures AlertOf(s, f) == Some(CopyAttempt)
    ensures Step(s, f).next.copyAttempt == MultiplePersons(f.faceCount)
  {
  }

  /** The proctoring text the frame leaves. */
  function ProctorTextOf(a: AlertType, injected: Option<SystemMessage>): ProctorAlert {
    match a
    case CopyAttempt => PotentialCheating
    case Drowsiness => DrowsinessDetected
    case Yawn => YawnDetected
    case GazeViolation => AttentionDiverted
    case AbsentViolation => StudentAbsent
    case SystemViolation => if injected.Some? then SystemAlert(injected.value) else NoViolations
  }

  /**
    When some condition fired, the tag names the FIRST of them and the
    proctoring text belongs to the LAST: one frame that sees two faces and
    ten closed-eye frames reports "copy_attempt" under "Drowsiness Detected!".
   */
  lemma TagFirstTextLast(s: Status, f: Frame)
    requires Candidates(s, f) != []
    ensures AlertOf(s, f) == Some(Candidates(s, f)[0])
    ensures Step(s, f).next.proctoringAlert == ProctorTextOf(Candidates(s, f)[|Candidates(s, f)| - 1], f.injected)
  {
    var c := Candidates(s, f);
    if f.injected.Some? {
      assert c[|c| - 1] == SystemViolation;
    } else if f.faceCount == 0 {
      assert c == [AbsentViolation];
    } else if GazeFires(s, f) {
      assert c[|c| - 1] == GazeViolation;
    } else if YawnFires(s, f) {
      assert c[|c| - 1] == Yawn;
    } else if DrowsinessFires(s, f) {
      assert c[|c| - 1] == Drowsiness;
    } else {
      assert c == [CopyAttempt];
    }
  }

  // ---------------------------------------------------------------------
  // Counters
  // ---------------------------------------------------------------------

  /** A frame without a face zeroes all three counters and the focus score and clears the copy-attempt status. */
  lemma NoFaceResets(s: Status, f: Frame)
    requires f.faceCount == 0
    ensures var n := Step(s, f).next;
      && n.eyeCounter == 0 && n.yawnCounter == 0 && n.headPoseAwayCounter == 0
      && n.focusScore == 0.0 && n.copyAttempt == NoCopyAttempt
      && n.lastPersonSeen == s.lastPersonSeen
  {
  }

  /** On an analysed frame each counter goes up by one exactly when its condition holds and is zero exactly when it does not. */
  lemma CountersDebounce(s: Status, f: Frame)
    requires Analysed(f)
    ensures var n := Step(s, f).next; var m := f.landmarks.value;
      && (n.eyeCounter == s.eyeCounter + 1 <==> EyesClosed(m.ear))
      && (n.eyeCounter == 0 <==> !EyesClosed(m.ear))
      && (n.yawnCounter == s.yawnCounter + 1 <==> MouthOpen(m.mar))
      && (n.yawnCounter == 0 <==> !MouthOpen(m.mar))
      && (n.headPoseAwayCounter == s.headPoseAwayCounter + 1 <==> HeadTurnedAway(m.yaw, m.pitch))
      && (n.headPoseAwayCounter == 0 <==> !HeadTurnedAway(m.yaw, m.pitch))
  {
  }

  /**
    Faces without landmarks (no shape predictor loaded) leave the counters,
    the sleeping label and the focus score as they were; only the copy check
    and the simulated event can raise a tag.
   */
  lemma NoLandmarksKeepsAnalysis(s: Status, f: Frame)
    requires f.faceCount > 0 && f.landmarks.None?
    ensures var n := Step(s, f).next;
      && n.eyeCounter == s.eyeCounter && n.yawnCounter == s.yawnCounter
      && n.headPoseAwayCounter == s.headPoseAwayCounter
      && n.sleeping == s.sleeping && n.focusScore == s.focusScore
    ensures AlertOf(s, f) == if f.faceCount > 1 then Some(CopyAttempt) else if f.injected.Some? then Some(SystemViolation) else None
  {
  }

  /**
    A face frame on which nothing fires keeps the proctoring text, except that
    "Student Absent!" goes back to "No Violations"; a face frame whose eyes are
    closed, or are not measured, keeps the sleeping label unless a counter fires.
   */
  lemma QuietFaceFrameKeeps(s: Status, f: Frame)
    requires f.faceCount > 0
    ensures Candidates(s, f) == [] ==>
      Step(s, f).next.proctoringAlert == (if s.proctoringAlert == StudentAbsent then NoViolations else s.proctoringAlert)
    ensures !DrowsinessFires(s, f) && !YawnFires(s, f) && (f.landmarks.None? || EyesClosed(f.landmarks.value.ear)) ==>
      Step(s, f).next.sleeping == s.sleeping
  {
  }

  // ---------------------------------------------------------------------
  // Sleeping label
  // ---------------------------------------------------------------------

  /** An analysed frame with open eyes and closed mouth says "Awake" unless the label was "Likely Sleeping", which stays. */
  lemma OpenEyesAwake(s: Status, f: Frame)
    requires Analysed(f) && !EyesClosed(f.landmarks.value.ear) && !MouthOpen(f.landmarks.value.mar)
    ensures Step(s, f).next.sleeping == if s.sleeping.LikelySleeping? then LikelySleeping else Awake
  {
  }

  /** "Yawning" turns into "Awake" exactly on an analysed frame whose mouth is closed and whose eyes are open. */
  lemma YawningClears(s: Status, f: Frame)
    requires s.sleeping == YawningDetected
    ensures Step(s, f).next.sleeping == Awake
        <==> Analysed(f) && !MouthOpen(f.landmarks.value.mar) && !EyesClosed(f.landmarks.value.ear)
  {
  }

  /** While a face stays in view, "Likely Sleeping" is only ever replaced by a yawn. */
  lemma LikelySleepingSticks(s: Status, f: Frame)
    requires s.sleeping == LikelySleeping && f.faceCount > 0
    ensures Step(s, f).next.sleeping == if YawnFires(s, f) then YawningDetected else LikelySleeping
  {
  }

  /** "Likely Sleeping", "Drowsiness Detected!" and the drowsiness tag are written only by a firing eye counter. */
  lemma DrowsinessOnlyWhenFiring(s: Status, f: Frame)
    ensures Step(s, f).next.sleeping == LikelySleeping ==> DrowsinessFires(s, f) || s.sleeping == LikelySleeping
    ensures Step(s, f).next.proctoringAlert == DrowsinessDetected ==> DrowsinessFires(s, f) || s.proctoringAlert == DrowsinessDetected
    ensures AlertOf(s, f) == Some(Drowsiness) <==> DrowsinessFires(s, f) && !CopyFires(f)
  {
    AlertOfFirstFiring(s, f);
  }

  // ---------------------------------------------------------------------
  // Drowsiness over a run of frames
  // ---------------------------------------------------------------------

  /** An open-eye frame resets the eye counter and reports no drowsiness of its own. */
  lemma OpenEyesStep(s: Status, f: Frame)
    requires Analysed(f) && !EyesClosed(f.landmarks.value.ear)
    ensures Step(s, f).next.eyeCounter == 0
    ensures Step(s, f).alert != Some(Drowsiness)
    ensures Step(s, f).next.sleeping == LikelySleeping ==> s.sleeping == LikelySleeping
    ensures Step(s, f).next.proctoringAlert == DrowsinessDetected ==> s.proctoringAlert == DrowsinessDetected
  {
    DrowsinessOnlyWhenFiring(s, f);
  }

  /** A frame whose primary face has its eyes closed. */
  predicate ClosedEyeFrame(f: Frame) {
    Analysed(f) && EyesClosed(f.landmarks.value.ear)
  }

  /** A single-face, closed-eye frame where nothing else happens. */
  predicate DrowsyOnlyFrame(f: Frame) {
    && f.faceCount == 1 && f.landmarks.Some? && f.injected.None?
    && EyesClosed(f.landmarks.value.ear)
    && !MouthOpen(f.landmarks.value.mar)
    && !HeadTurnedAway(f.landmarks.value.yaw, f.landmarks.value.pitch)
  }

  lemma RunPrefix(s: Status, frames: seq<Frame>, k: nat)
    requires k < |frames|
    ensures Run(s, frames[..k + 1]) == Step(Run(s, frames[..k]), frames[k]).next
  {
    assert frames[..k + 1][..k] == frames[..k];
  }

  /** The alerts of a prefix of a run are the run's own first alerts. */
  lemma PrefixAlert(s: Status, frames: seq<Frame>, n: nat, k: nat)
    requires k < n <= |frames|
    ensures AlertAt(s, frames[..n], k) == AlertAt(s, frames, k)
  {
    assert frames[..n][..k] == frames[..k];
  }

  /** The last frame of a run is one step from the state before it. */
  lemma LastStep(s: Status, frames: seq<Frame>)
    requires |frames| > 0
    ensures Run(s, frames) == Step(Run(s, frames[..|frames| - 1]), frames[|frames| - 1]).next
    ensures AlertAt(s, frames, |frames| - 1) == Step(Run(s, frames[..|frames| - 1]), frames[|frames| - 1]).alert
  {
  }

  /** The eye counter grows by at most one per frame. */
  lemma {:induction false} EyeCounterBound(s: Status, frames: seq<Frame>)
    ensures Run(s, frames).eyeCounter <= s.eyeCounter + |frames|
    decreases |frames|
  {
    if frames != [] {
      EyeCounterBound(s, frames[..|frames| - 1]);
    }
  }

  /** Over consecutive closed-eye frames the eye counter goes up by one per frame. */
  lemma {:induction false} ClosedEyeRunCounts(s: Status, frames: seq<Frame>)
    requires forall k :: 0 <= k < |frames| ==> ClosedEyeFrame(frames[k])
    ensures Run(s, frames).eyeCounter == s.eyeCounter + |frames|
    decreases |frames|
  {
    if frames != [] {
      ClosedEyeRunCounts(s, frames[..|frames| - 1]);
    }
  }

  /**
    From an eye counter of zero, whatever the frames, nothing in the first
    nine reports drowsiness: the tag never says so, and "Likely Sleeping" or
    "Drowsiness Detected!" are only there if they already were.
   */
  lemma {:induction false} NoDrowsinessBeforeTenthFrame(s: Status, frames: seq<Frame>)
    requires s.eyeCounter == 0 && |frames| < EYE_AR_CONSEC_FRAMES
    ensures forall k :: 0 <= k < |frames| ==> AlertAt(s, frames, k) != Some(Drowsiness)
    ensures Run(s, frames).sleeping == LikelySleeping ==> s.sleeping == LikelySleeping
    ensures Run(s, frames).proctoringAlert == DrowsinessDetected ==> s.proctoringAlert == DrowsinessDetected
    decreases |frames|
  {
    forall k | 0 <= k < |frames|
      ensures AlertAt(s, frames, k) != Some(Drowsiness)
    {
      EyeCounterBound(s, frames[..k]);
      assert |frames[..k]| == k;
      assert !DrowsinessFires(Run(s, frames[..k]), frames[k]);
      DrowsinessOnlyWhenFiring(Run(s, frames[..k]), frames[k]);
    }
    if frames != [] {
      var init := frames[..|frames| - 1];
      NoDrowsinessBeforeTenthFrame(s, init);
      EyeCounterBound(s, init);
      DrowsinessOnlyWhenFiring(Run(s, init), frames[|frames| - 1]);
    }
  }

  /** Ten closed-eye frames in a row, from a counter of zero, report drowsiness on the tenth. */
  lemma DrowsinessOnTenthFrame(s: Status, frames: seq<Frame>)
    requires s.eyeCounter == 0 && |frames| == EYE_AR_CONSEC_FRAMES
    requires forall k :: 0 <= k < |frames| ==> DrowsyOnlyFrame(frames[k])
    ensures AlertAt(s, frames, 9) == Some(Drowsiness)
    ensures Run(s, frames).sleeping == LikelySleeping
    ensures Run(s, frames).proctoringAlert == DrowsinessDetected
    ensures forall k :: 0 <= k < 9 ==> AlertAt(s, frames, k) == None
  {
    var init := frames[..9];
    assert forall k :: 0 <= k < |init| ==> ClosedEyeFrame(init[k]);
    ClosedEyeRunCounts(s, init);
    var before := Run(s, init);
    var last := Step(before, frames[9]);
    assert DrowsinessFires(before, frames[9]);
    AlertOfFirstFiring(before, frames[9]);
    assert AlertAt(s, frames, 9) == last.alert;
    assert frames[..10] == frames;
    RunPrefix(s, frames, 9);
    assert Run(s, frames) == last.next;
    forall k | 0 <= k < 9
      ensures AlertAt(s, frames, k) == None
    {
      var r := Run(s, frames[..k]);
      EyeCounterBound(s, frames[..k]);
      assert !DrowsinessFires(r, frames[k]);
      AlertOfFirstFiring(r, frames[k]);
    }
  }

  /** Nine closed-eye frames and then an open-eye one: the counter is back at zero and drowsiness was never reported. */
  lemma NineClosedThenOpen(s: Status, frames: seq<Frame>)
    requires s.eyeCounter == 0 && |frames| == EYE_AR_CONSEC_FRAMES
    requires forall k :: 0 <= k < 9 ==> ClosedEyeFrame(frames[k])
    requires Analysed(frames[9]) && !EyesClosed(frames[9].landmarks.value.ear)
    ensures Run(s, frames).eyeCounter == 0
    ensures forall k :: 0 <= k < |frames| ==> AlertAt(s, frames, k) != Some(Drowsiness)
    ensures Run(s, frames).sleeping == LikelySleeping ==> s.sleeping == LikelySleeping
    ensures Run(s, frames).proctoringAlert == DrowsinessDetected ==> s.proctoringAlert == DrowsinessDetected
  {
    var init := frames[..9];
    NoDrowsinessBeforeTenthFrame(s, init);
    LastStep(s, frames);
    OpenEyesStep(Run(s, init), frames[9]);
    assert AlertAt(s, frames, 9) == Step(Run(s, init), frames[9]).alert;
    forall k | 0 <= k < |frames|
      ensures AlertAt(s, frames, k) != Some(Drowsiness)
    {
      if k < 9 {
        PrefixAlert(s, frames, 9, k);
        assert AlertAt(s, init, k) != Some(Drowsiness);
      } else {
        assert k == 9;
      }
    }
  }

  // ---------------------------------------------------------------------
  // Focus score
  // ---------------------------------------------------------------------

  /** The gaze penalty is the full 50 points exactly from the thirtieth head-turned frame on. */
  lemma GazePenaltySaturates(headPoseAwayCounter: nat)
    ensures GazePenalty(headPoseAwayCounter) == 50.0 <==> headPoseAwayCounter >= GAZE_AWAY_CONSEC_FRAMES
    ensures 0.0 <= GazePenalty(headPoseAwayCounter) <= 50.0
  {
  }

  /** With the full gaze penalty, the focus score is at most 50 for any mouth reading a mouth can give. */
  lemma FocusWhileLookingAway(ear: real, mar: real, headPoseAwayCounter: nat)
    requires mar >= 0.0 && headPoseAwayCounter >= GAZE_AWAY_CONSEC_FRAMES
    ensures FocusScore(ear, mar, headPoseAwayCounter) <= 50.0
  {
    GazePenaltySaturates(headPoseAwayCounter);
  }

  /** Looking away longer never raises the focus score. */
  lemma FocusNonIncreasingInGaze(ear: real, mar: real, c1: nat, c2: nat)
    requires c1 <= c2
    ensures FocusScore(ear, mar, c2) <= FocusScore(ear, mar, c1)
  {
    assert c1 as real / GAZE_AWAY_CONSEC_FRAMES as real <= c2 as real / GAZE_AWAY_CONSEC_FRAMES as real;
  }

  /** Open eyes, a closed mouth and a steady head score the full 100. */
  lemma FullFocus(ear: real)
    requires !EyesClosed(ear)
    ensures FocusScore(ear, 0.0, 0) == 100.0
  {
  }

  // ---------------------------------------------------------------------
  // Absence
  // ---------------------------------------------------------------------

  /**
    A frame without a face is "absent" exactly when more than five seconds
    have passed since a face was last seen; before that it is only "No
    person detected", and the proctoring text keeps "Student Absent!" if it
    had it and otherwise says "No Violations".
   */
  lemma AbsenceThreshold(s: Status, f: Frame)
    requires f.faceCount == 0
    ensures Step(s, f).next.sleeping == Absent <==> f.now - s.lastPersonSeen > ABSENCE_TIME_THRESHOLD
    ensures Step(s, f).next.sleeping == NoPersonDetected <==> f.now - s.lastPersonSeen <= ABSENCE_TIME_THRESHOLD
    ensures AlertOf(s, f) == Some(AbsentViolation) <==> f.now - s.lastPersonSeen > ABSENCE_TIME_THRESHOLD
    ensures f.injected.None? ==>
      Step(s, f).next.proctoringAlert ==
        if f.now - s.lastPersonSeen > ABSENCE_TIME_THRESHOLD || s.proctoringAlert == StudentAbsent then StudentAbsent
        else NoViolations
  {
    AlertOfFirstFiring(s, f);
  }

  /** A frame with a face records when it was seen and clears "Student Absent!". */
  lemma PresenceClearsAbsence(s: Status, f: Frame)
    requires f.faceCount > 0
    ensures Step(s, f).next.lastPersonSeen == f.now
    ensures Step(s, f).next.proctoringAlert != StudentAbsent
    ensures AlertOf(s, f) != Some(AbsentViolation)
  {
    AlertOfFirstFiring(s, f);
  }

  /** Over frames without a face, absence is always measured from the last frame that had one. */
  lemma {:induction false} AbsenceMeasuredFromLastFace(s: Status, frames: seq<Frame>)
    requires forall k :: 0 <= k < |frames| ==> frames[k].faceCount == 0
    ensures Run(s, frames).lastPersonSeen == s.lastPersonSeen
    ensures forall k :: 0 <= k < |frames| ==>
      (AlertAt(s, frames, k) == Some(AbsentViolation) <==> frames[k].now - s.lastPersonSeen > ABSENCE_TIME_THRESHOLD)
    decreases |frames|
  {
    if frames != [] {
      AbsenceMeasuredFromLastFace(s, frames[..|frames| - 1]);
    }
    forall k | 0 <= k < |frames|
      ensures AlertAt(s, frames, k) == Some(AbsentViolation) <==> frames[k].now - s.lastPersonSeen > ABSENCE_TIME_THRESHOLD
    {
      AbsenceMeasuredFromLastFace(s, frames[..k]);
      AbsenceThreshold(Run(s, frames[..k]), frames[k]);
    }
  }


  /** One eye's two lid spans sum below the EAR threshold times twice its corner span. */
  ghost predicate LidsBelowThreshold(eye: seq<AspectRatios.Point>, dist: (AspectRatios.Point, AspectRatios.Point) -> real)
    requires |eye| == 6
  {
    dist(eye[1], eye[5]) + dist(eye[2], eye[4]) < EYE_AR_THRESH * (2.0 * dist(eye[0], eye[3]))
  }

  /**
    The frame's eyes count as closed only if one eye's lid spans are below
    the threshold against its own corner span, and they do when both eyes' are.
   */
  lemma EyesClosedFromLandmarks(left: seq<AspectRatios.Point>, right: seq<AspectRatios.Point>,
                                dist: (AspectRatios.Point, AspectRatios.Point) -> real)
    requires |left| == 6 && |right| == 6 && AspectRatios.IsEuclidean(dist)
    requires left[0] != left[3] && right[0] != right[3]
    ensures EyesClosed(AspectRatios.MeanEar(AspectRatios.EyeAspectRatio(left, dist), AspectRatios.EyeAspectRatio(right, dist)))
        ==> LidsBelowThreshold(left, dist) || LidsBelowThreshold(right, dist)
    ensures LidsBelowThreshold(left, dist) && LidsBelowThreshold(right, dist)
        ==> EyesClosed(AspectRatios.MeanEar(AspectRatios.EyeAspectRatio(left, dist), AspectRatios.EyeAspectRatio(right, dist)))
  {
    var l, r := AspectRatios.EyeAspectRatio(left, dist), AspectRatios.EyeAspectRatio(right, dist);
    AspectRatios.DistinctPointsApart(dist, left[0], left[3]);
    AspectRatios.DistinctPointsApart(dist, right[0], right[3]);
    AspectRatios.AspectRatioBelow(dist(left[1], left[5]), dist(left[2], left[4]), dist(left[0], left[3]), EYE_AR_THRESH);
    AspectRatios.AspectRatioBelow(dist(right[1], right[5]), dist(right[2], right[4]), dist(right[0], right[3]), EYE_AR_THRESH);
    AspectRatios.MeanEarBelow(l, r, EYE_AR_THRESH);
  }
}
