/**
  The detector's module-level state as an object, and the per-frame update
  as a method that changes it in the order the service does: every status
  is overwritten as its condition is reached, and the frame's alert tag is
  assigned only while it is still unset.
 */
module Attentiveness {
  import opened Wrappers
  import opened Labels
  import opened Detection
  import opened DetectionProperties

  class AttentivenessState {
    var faceCount: nat
    var sleepingStatus: SleepStatus
    var focusScore: real
    var unauthorizedActivityStatus: Activity
    var copyAttemptStatus: CopyStatus
    var proctoringAlertStatus: ProctorAlert
    /** Consecutive frames with the eyes closed. */
    var counter: nat
    /** Consecutive frames with the mouth open. */
    var yawnCounter: nat
    /** Consecutive frames with the head turned away. */
    var headPoseAwayCounter: nat
    var lastPersonDetectedTime: real

    function Snapshot(): Status
      reads this
    {
      Status(faceCount, sleepingStatus, focusScore, unauthorizedActivityStatus, copyAttemptStatus,
             proctoringAlertStatus, counter, yawnCounter, headPoseAwayCounter, lastPersonDetectedTime)
    }

    ghost predicate Valid()
      reads this
    {
      Consistent(Snapshot())
    }

    constructor (startTime: real)
      ensures Snapshot() == Initial(startTime)
      ensures Valid()
    {
      faceCount := 0;
      sleepingStatus := NoPersonDetected;
      focusScore := 0.0;
      unauthorizedActivityStatus := NoneDetected;
      copyAttemptStatus := NoCopyAttempt;
      proctoringAlertStatus := NoViolations;
      counter, yawnCounter, headPoseAwayCounter := 0, 0, 0;
      lastPersonDetectedTime := startTime;
    }

    /**
      Processes one frame and returns its alert tag: the faces-present or
      no-face update, then the simulated system-level event.
     */
    method ProcessFrame(f: Frame) returns (alertType: Option<AlertType>)
      modifies this
      ensures Snapshot() == Step(old(Snapshot()), f).next
      ensures alertType == Step(old(Snapshot()), f).alert
      ensures old(Valid()) ==> Valid()
    {
      ghost var s := Snapshot();
      faceCount := f.faceCount;
      if faceCount > 0 {
        alertType := ObservePresence(s, f);
      } else {
        alertType := ObserveAbsence(s, f);
      }
      alertType := InjectSystemEvent(f.injected, alertType);

      SystemEventLast(s, f);
    }

    /** The update of a frame with at least one face, before the simulated system-level event. */
    method ObservePresence(ghost s: Status, f: Frame) returns (alertType: Option<AlertType>)
      requires f.faceCount > 0 && Snapshot() == s.(faceCount := f.faceCount)
      modifies this
      ensures faceCount == f.faceCount && lastPersonDetectedTime == f.now
      ensures counter == NextEyeCounter(s, f)
      ensures yawnCounter == NextYawnCounter(s, f)
      ensures headPoseAwayCounter == NextHeadPoseCounter(s, f)
      ensures sleepingStatus == NextSleeping(s, f)
      ensures focusScore == NextFocusScore(s, f)
      ensures copyAttemptStatus == NextCopyAttempt(f)
      ensures unauthorizedActivityStatus == NextActivity(s, f.(injected := None))
      ensures proctoringAlertStatus == NextProctorAlert(s, f.(injected := None))
      ensures alertType == AlertOf(s, f.(injected := None))
    {
      alertType := None;
      lastPersonDetectedTime := f.now;
      // Reset the statuses that only last while re-triggered.
      unauthorizedActivityStatus := NoneDetected;
      copyAttemptStatus := NoCopyAttempt;

      if proctoringAlertStatus == StudentAbsent {
        proctoringAlertStatus := NoViolations;
      }

      if faceCount > 1 {
        copyAttemptStatus := MultiplePersons(faceCount);
        proctoringAlertStatus := PotentialCheating;
        alertType := Some(CopyAttempt);
      }

      if f.landmarks.Some? {
        alertType := AnalysePrimaryFace(s, f, alertType);
      }
      AlertOfFirstFiring(s, f.(injected := None));
    }

    /** The landmark analysis of the first face: eye closure, yawn, head pose, then the focus score. */
    method AnalysePrimaryFace(ghost s: Status, f: Frame, prior: Option<AlertType>) returns (alertType: Option<AlertType>)
      requires Analysed(f) && unauthorizedActivityStatus == NoneDetected && sleepingStatus == s.sleeping
      requires counter == s.eyeCounter && yawnCounter == s.yawnCounter && headPoseAwayCounter == s.headPoseAwayCounter
      modifies this`counter, this`yawnCounter, this`headPoseAwayCounter, this`sleepingStatus
      modifies this`unauthorizedActivityStatus, this`proctoringAlertStatus, this`focusScore
      ensures counter == NextEyeCounter(s, f)
      ensures yawnCounter == NextYawnCounter(s, f)
      ensures headPoseAwayCounter == NextHeadPoseCounter(s, f)
      ensures sleepingStatus == NextSleeping(s, f)
      ensures focusScore == NextFocusScore(s, f)
      ensures unauthorizedActivityStatus == if GazeFires(s, f) then LookingAway else NoneDetected
      ensures proctoringAlertStatus ==
        if GazeFires(s, f) then AttentionDiverted
        else if YawnFires(s, f) then YawnDetected
        else if DrowsinessFires(s, f) then DrowsinessDetected
        else old(proctoringAlertStatus)
      ensures alertType ==
        if prior.Some? then prior
        else if DrowsinessFires(s, f) then Some(Drowsiness)
        else if YawnFires(s, f) then Some(Yawn)
        else if GazeFires(s, f) then Some(GazeViolation)
        else None
    {
      alertType := UpdateEyeClosure(s, f, prior);
      alertType := UpdateYawn(s, f, alertType);
      alertType := UpdateHeadPose(s, f, alertType);
      var m := f.landmarks.value;
      focusScore := FocusScore(m.ear, m.mar, headPoseAwayCounter);
    }

    /** The update of a frame without faces, before the simulated system-level event. */
    method ObserveAbsence(ghost s: Status, f: Frame) returns (alertType: Option<AlertType>)
      requires f.faceCount == 0 && Snapshot() == s.(faceCount := f.faceCount)
      modifies this
      ensures faceCount == f.faceCount && lastPersonDetectedTime == s.lastPersonSeen
      ensures counter == NextEyeCounter(s, f)
      ensures yawnCounter == NextYawnCounter(s, f)
      ensures headPoseAwayCounter == NextHeadPoseCounter(s, f)
      ensures sleepingStatus == NextSleeping(s, f)
      ensures focusScore == NextFocusScore(s, f)
      ensures copyAttemptStatus == NextCopyAttempt(f)
      ensures unauthorizedActivityStatus == NextActivity(s, f.(injected := None))
      ensures proctoringAlertStatus == NextProctorAlert(s, f.(injected := None))
      ensures alertType == AlertOf(s, f.(injected := None))
    {
      alertType := None;
      var timeSinceLastPerson := f.now - lastPersonDetectedTime;
      if timeSinceLastPerson > ABSENCE_TIME_THRESHOLD {
        sleepingStatus := Absent;
        proctoringAlertStatus := StudentAbsent;
        unauthorizedActivityStatus := NoPersonSeen;
        if alertType == None {
          alertType := Some(AbsentViolation);
        }
      } else {
        sleepingStatus := NoPersonDetected;
        unauthorizedActivityStatus := NoneDetected;
      }

      focusScore := 0.0;
      copyAttemptStatus := NoCopyAttempt;

      if proctoringAlertStatus != StudentAbsent {
        proctoringAlertStatus := NoViolations;
      }

      // No face: every consecutive-frame count starts over.
      counter := 0;
      yawnCounter := 0;
      headPoseAwayCounter := 0;
      AlertOfFirstFiring(s, f.(injected := None));
    }

    /** Eye-closure debounce: counts closed-eye frames and reports drowsiness from the tenth on. */
    method UpdateEyeClosure(ghost s: Status, f: Frame, prior: Option<AlertType>) returns (alertType: Option<AlertType>)
      requires Analysed(f) && counter == s.eyeCounter
      modifies this`counter, this`sleepingStatus, this`proctoringAlertStatus
      ensures counter == NextEyeCounter(s, f)
      ensures sleepingStatus ==
        if DrowsinessFires(s, f) then LikelySleeping
        else if EyesClosed(f.landmarks.value.ear) || old(sleepingStatus).LikelySleeping? || old(sleepingStatus).YawningDetected?
        then old(sleepingStatus)
        else Awake
      ensures proctoringAlertStatus == if DrowsinessFires(s, f) then DrowsinessDetected else old(proctoringAlertStatus)
      ensures alertType == if prior == None && DrowsinessFires(s, f) then Some(Drowsiness) else prior
    {
      alertType := prior;
      var ear := f.landmarks.value.ear;
      if ear < EYE_AR_THRESH {
        counter := counter + 1;
        if counter >= EYE_AR_CONSEC_FRAMES {
          sleepingStatus := LikelySleeping;
          proctoringAlertStatus := DrowsinessDetected;
          if alertType == None {
            alertType := Some(Drowsiness);
          }
        }
      } else {
        counter := 0;
        // Only an unqualified label becomes "Awake" on an open-eye frame.
        SleepingGuard(sleepingStatus);
        YawningGuard(sleepingStatus);
        if !(Contains(sleepingStatus.Text(), "Likely Sleeping") || Contains(sleepingStatus.Text(), "Yawning")) {
          sleepingStatus := Awake;
        }
      }
    }

    /** Yawn debounce: counts open-mouth frames and reports a yawn from the tenth on. */
    method UpdateYawn(ghost s: Status, f: Frame, prior: Option<AlertType>) returns (alertType: Option<AlertType>)
      requires Analysed(f) && yawnCounter == s.yawnCounter
      modifies this`yawnCounter, this`sleepingStatus, this`proctoringAlertStatus
      ensures yawnCounter == NextYawnCounter(s, f)
      ensures sleepingStatus ==
        if YawnFires(s, f) then YawningDetected
        else if !MouthOpen(f.landmarks.value.mar) && old(sleepingStatus) == YawningDetected && !EyesClosed(f.landmarks.value.ear)
        then Awake
        else old(sleepingStatus)
      ensures proctoringAlertStatus == if YawnFires(s, f) then YawnDetected else old(proctoringAlertStatus)
      ensures alertType == if prior == None && YawnFires(s, f) then Some(Yawn) else prior
    {
      alertType := prior;
      var mar := f.landmarks.value.mar;
      var ear := f.landmarks.value.ear;
      if mar > MOUTH_AR_THRESH {
        yawnCounter := yawnCounter + 1;
        if yawnCounter >= MOUTH_AR_CONSEC_FRAMES {
          sleepingStatus := YawningDetected;
          proctoringAlertStatus := YawnDetected;
          if alertType == None {
            alertType := Some(Yawn);
          }
        }
      } else {
        yawnCounter := 0;
        // A yawn label is cleared only once the eyes are open as well.
        if sleepingStatus == YawningDetected && ear >= EYE_AR_THRESH {
          sleepingStatus := Awake;
        }
      }
    }

    /**
      Gaze debounce: counts head-turned frames and reports attention diverted
      from the thirtieth on. It runs after the activity status was reset to
      "None Detected" on this frame, so its "System Access" guard never holds.
     */
    method UpdateHeadPose(ghost s: Status, f: Frame, prior: Option<AlertType>) returns (alertType: Option<AlertType>)
      requires Analysed(f) && headPoseAwayCounter == s.headPoseAwayCounter
      requires unauthorizedActivityStatus == NoneDetected
      modifies this`headPoseAwayCounter, this`unauthorizedActivityStatus, this`proctoringAlertStatus
      ensures headPoseAwayCounter == NextHeadPoseCounter(s, f)
      ensures unauthorizedActivityStatus == if GazeFires(s, f) then LookingAway else NoneDetected
      ensures proctoringAlertStatus == if GazeFires(s, f) then AttentionDiverted else old(proctoringAlertStatus)
      ensures alertType == if prior == None && GazeFires(s, f) then Some(GazeViolation) else prior
    {
      alertType := prior;
      var yaw := f.landmarks.value.yaw;
      var pitch := f.landmarks.value.pitch;
      var isLookingAway := false;
      if Abs(yaw) > HEAD_POSE_YAW_THRESH || Abs(pitch) > HEAD_POSE_PITCH_THRESH {
        isLookingAway := true;
      }

      if isLookingAway {
        headPoseAwayCounter := headPoseAwayCounter + 1;
        if headPoseAwayCounter >= GAZE_AWAY_CONSEC_FRAMES {
          unauthorizedActivityStatus := LookingAway;
          proctoringAlertStatus := AttentionDiverted;
          if alertType == None {
            alertType := Some(GazeViolation);
          }
        }
      } else {
        headPoseAwayCounter := 0;
        SystemAccessGuard(unauthorizedActivityStatus);
        if !(copyAttemptStatus != NoCopyAttempt || Contains(unauthorizedActivityStatus.Text(), "System Access")) {
          unauthorizedActivityStatus := NoneDetected;
        }
      }
    }

    /**
      The simulated tab switch or external access, which the service draws
      with probability 1/10000 per frame: it overrides both texts and sets
      the tag only if nothing else did.
     */
    method InjectSystemEvent(injected: Option<SystemMessage>, prior: Option<AlertType>) returns (alertType: Option<AlertType>)
      modifies this`proctoringAlertStatus, this`unauthorizedActivityStatus
      ensures proctoringAlertStatus == if injected.Some? then SystemAlert(injected.value) else old(proctoringAlertStatus)
      ensures unauthorizedActivityStatus == if injected.Some? then SystemAccessViolation else old(unauthorizedActivityStatus)
      ensures alertType == if prior == None && injected.Some? then Some(SystemViolation) else prior
    {
      alertType := prior;
      if injected.Some? {
        proctoringAlertStatus := SystemAlert(injected.value);
        unauthorizedActivityStatus := SystemAccessViolation;
        if alertType == None {
          alertType := Some(SystemViolation);
        }
      }
    }
  }

}
