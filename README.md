# Attentiveness detector of the proctoring backend

The proctoring service watches a webcam. For every frame it counts faces and
measures the first face. It measures the eye aspect ratio (EAR, the mean of
both eyes), the mouth aspect ratio (MAR) and the head's yaw and pitch. It
then updates six module-level status values:
- face count;
- sleeping status;
- focus score;
- unauthorized activity;
- copy attempt;
- proctoring alert.

It also keeps three consecutive-frame counters and the time a face was last
seen. It returns one alert tag for the frame, or none.

This project models:

- the two aspect ratios over dlib's 68-point landmarks (`AspectRatios`). The
  Euclidean distance is a parameter, pinned down by `dist >= 0` and
  `dist * dist == dx*dx + dy*dy`;
- every status text the service publishes, as datatypes whose `Text()` is
  the exact literal. It also models the substring tests the service applies
  to those texts (`Labels`);
- one frame's update as a declarative function `Detection.Step`, field by
  field, with `Run` folding it over a sequence of frames;
- the module-level state as the class `Attentiveness.AttentivenessState`.
  Its `ProcessFrame` performs the update in the service's own order:
  1. overwrite each status as its condition is reached;
  2. assign the alert tag only while it is unset;
  3. apply the simulated system-level event last.

  The method is proved equal to `Step` and to keep the state invariant
  `Consistent`;
- the properties of that update (`DetectionProperties`):
  - the debounce counters;
  - drowsiness exactly on the tenth closed-eye frame;
  - the stickiness of the sleeping labels;
  - alert precedence;
  - focus-score bounds and the gaze penalty;
  - absence measured from the last frame with a face.

Four behaviours of the source are kept as written:

- **No landmarks.** A frame with faces but no shape predictor leaves the counters, the sleeping
  label and the focus score unchanged.
- **Dead guard.** The "System Access" test at backend/app.py:246 can never hold.
  `UpdateHeadPose` keeps the test, and `Labels.SystemAccessGuard` shows that it
  reduces to `copyAttemptStatus != NoCopyAttempt`.
- **Tag versus text.** The alert tag and the proctoring text can disagree. The tag comes from the
  first condition that fires, and the text from the last
  (`DetectionProperties.TagFirstTextLast`). For example, two faces together with a
  tenth closed-eye frame give the tag `copy_attempt` with the text
  "Drowsiness Detected!".
- **Absent label.** "No person detected - (Absent)" is left in place when a face returns with
  its eyes closed. Only an open-eye frame replaces it with "Awake".

The aspect ratio divides by the horizontal span without a guard. The model
follows the code and returns no sentinel value for a zero span. Its
`EyeAspectRatio` and `MouthAspectRatio` require the two corner points to
differ (see "## Left out").

`ProcessFrame` takes the frame's measures as numbers:
- `ear` is `AspectRatios.MeanEar` of the two eyes' `EyeAspectRatio`
  (`DetectionProperties.EyesClosedFromLandmarks` states the eye-closed test
  in terms of the landmark distances);
- `mar` is `MouthAspectRatio` of the 20 mouth points;
- yaw and pitch come from the pose solver, which is not modelled.

The clock reading and the outcome of the random draw are also parameters:
- `Frame.now` is the clock reading;
- `Frame.injected` is the message the one-in-ten-thousand draw picked, or `None`.

## Model

| member | source | states |
|---|---|---|
| AspectRatios.EyeAspectRatio | backend/app.py:62-70 | EAR is non-negative and times twice the corner-to-corner distance equals the sum of the two lid distances (pairs 1/5, 2/4 over 0/3) |
| AspectRatios.MouthAspectRatio | backend/app.py:72-80 | MAR is non-negative and times twice the 48-54 distance equals the sum of the 50-58 and 52-56 distances |
| AspectRatios.AspectRatio | backend/app.py:69-79 | `(A + B) / (2.0 * C)` is non-negative and, multiplied by twice the horizontal span, gives back the sum of the two vertical spans |
| AspectRatios.AspectRatioBelow | backend/app.py:161 | a ratio is below a threshold exactly when the vertical spans sum below threshold times twice the horizontal span |
| AspectRatios.MeanEar | backend/app.py:155 | the averaged EAR lies between the two eyes' EARs |
| AspectRatios.MeanEarBelow | backend/app.py:155 | a mean below the threshold needs one eye below it; both below puts the mean below |
| DetectionProperties.EyesClosedFromLandmarks | backend/app.py:153-161 | the mean EAR of two eyes is below the 0.25 threshold only if one eye's lid spans sum below 0.25 times twice its corner span, and is below it when both eyes' are |
| AspectRatios.EyeAspectRatioShift | backend/app.py:62-70 | EAR is unchanged when every landmark is moved by the same offset |
| AspectRatios.MouthAspectRatioShift | backend/app.py:72-80 | MAR is unchanged when every landmark is moved by the same offset |
| Labels.Contains | backend/app.py:171 | a string contains only needles no longer than itself, and always contains the empty needle |
| Labels.ContainsWitness | backend/app.py:171 | the recursive substring test agrees with "some slice equals the needle" |
| Labels.SleepingGuard | backend/app.py:171 | the sleeping text contains "Likely Sleeping" iff the label is the likely-sleeping one |
| Labels.YawningGuard | backend/app.py:171 | the sleeping text contains "Yawning" iff the label is the yawning one |
| Labels.SystemAccessGuard | backend/app.py:246 | the activity text contains "System Access" iff it is the system-access violation |
| Labels.SleepStatus.Text | backend/app.py:164-283 | gives the five exact sleeping texts; the text is "Yawning (AI Detected)", the value the open-eye reset compares against at line 185, exactly for the yawning label |
| Labels.Activity.Text | backend/app.py:120-305 | gives the exact activity texts, except that the looking-away text omits the rounded yaw and pitch; the text is the reset value "None Detected" exactly when no violation is recorded |
| Labels.CopyStatus.Text | backend/app.py:121-129 | the copy-attempt text is "None Detected" exactly when no copy attempt is recorded |
| Labels.DecimalString | backend/app.py:129 | the face count is printed as a non-empty string of decimal digits, with no leading zero unless the count is 0 |
| Labels.DecimalRoundTrip | backend/app.py:129 | the face count printed in the copy-attempt text reads back as the same number |
| Labels.SleepStatusTextsDistinct | backend/app.py:164-283 | the five sleeping labels publish five different texts ("No person detected", "Awake", "Likely Sleeping (Eyes Closed)", "Yawning (AI Detected)", "No person detected - (Absent)") |
| Labels.ActivityTextsDistinct | backend/app.py:120-305 | the four activity labels publish four different texts |
| Labels.CopyStatusTextsDistinct | backend/app.py:121-129 | two copy-attempt texts agree only for the same status and, for multiple persons, the same face count |
| Labels.ProctorAlertTextsDistinct | backend/app.py:124-304 | the proctoring alerts, including the three simulated-event messages, publish pairwise different texts |
| Labels.SystemMessage.Text | backend/app.py:300-304 | no simulated-event message equals "Student Absent!", the text compared at lines 124 and 289 |
| Labels.ProctorAlert.Text | backend/app.py:124-304 | the proctoring text equals "Student Absent!" (the tests at lines 124 and 289) exactly when the alert is the absence alert |
| Labels.AlertType.Tag | backend/app.py:131-307 | gives the six exact tags the detector returns ("copy_attempt", "drowsiness", "yawn", "gaze_violation", "absent_violation", "system_violation"), none of them empty |
| Labels.AlertTagsDistinct | backend/app.py:131-307 | the six alert kinds return six different tags |
| Detection.Initial | backend/app.py:31-47 | the start-up state satisfies the invariant `Consistent` and records the start time as the last time a face was seen |
| Detection.NextEyeCounter | backend/app.py:161-169 | the eye counter grows by at most one, is zero after a face-free frame, and on an analysed frame is zero exactly when the eyes are open |
| Detection.NextYawnCounter | backend/app.py:175-183 | the yawn counter grows by at most one, is zero after a face-free frame, and on an analysed frame is zero exactly when the mouth is closed |
| Detection.NextHeadPoseCounter | backend/app.py:232-244 | the head-pose counter grows by at most one, is zero after a face-free frame, and on an analysed frame is zero exactly when the head faces forward |
| Detection.NextFocusScore | backend/app.py:249-286 | the focus score stays within [0, 100] and is 0 after a face-free frame |
| Detection.NextSleeping | backend/app.py:160-283 | a face-free frame says "No person detected" or "Absent"; on a face frame every label, "No person detected" included, appears only when its own condition held or it was already there; a firing yawn counter always writes "Yawning (AI Detected)", and a firing eye counter without a yawn always writes "Likely Sleeping (Eyes Closed)" |
| Detection.NextActivity | backend/app.py:120-305 | the activity is the system-access violation exactly when the simulated event fired; without the event it is "Looking Away" exactly when the gaze counter fired and "No Person Detected" exactly when absence fired |
| Detection.NextCopyAttempt | backend/app.py:121-129 | no copy attempt exactly when at most one face is seen; otherwise the status records the face count |
| Detection.NextProctorAlert | backend/app.py:124-304 | the simulated event sets its own message; "Student Absent!" only without a face; every other alert text appears only when its condition fired or it was already there, and on a face frame "No Violations" only when it was already there or replaces "Student Absent!" |
| Detection.Candidates | backend/app.py:106-310 | the fired conditions are listed in strictly increasing rank |
| Detection.AlertOf | backend/app.py:106-310 | there is no tag exactly when nothing fired; otherwise the tag is one of the conditions that fired |
| Detection.Step | backend/app.py:92-310 | one frame keeps the invariant: focus in [0, 100], zero counters without a face, the copy status tied to the face count, "Looking Away" only at 30+ frames, "Student Absent!" only without a face |
| Detection.Run | backend/app.py:92-310 | the invariant holds after any sequence of frames |
| Detection.FocusScore | backend/app.py:249-261 | the focus score is capped to [0, 100] |
| DetectionProperties.AlertOfFirstFiring | backend/app.py:106-310 | the tag is copy, drowsiness, yawn, gaze, absence, system event: the first of these that fires, else none |
| DetectionProperties.CandidatesHoldFiredAnalysis | backend/app.py:160-242 | drowsiness, yawn and gaze are candidates exactly when their counters fired |
| DetectionProperties.CandidatesHoldFiredFrameEvents | backend/app.py:127-307 | copy attempt, absence and the system event are candidates exactly when they fired |
| DetectionProperties.AlertIsHighestPriority | backend/app.py:106-310 | whenever some condition fired there is a tag, and it ranks no lower than that condition |
| DetectionProperties.TagFirstTextLast | backend/app.py:127-307 | when something fires, the tag is the first condition and the proctoring text belongs to the last |
| DetectionProperties.SystemEventLast | backend/app.py:298-307 | the simulated event overwrites the activity and proctoring texts and takes the tag only when nothing else did |
| DetectionProperties.MultipleFacesAreCopyAttempt | backend/app.py:127-131 | more than one face always yields the copy-attempt tag and the "Multiple Persons Detected (n)!" status |
| DetectionProperties.NoFaceResets | backend/app.py:286-295 | a frame without a face zeroes the three counters and the focus score, clears the copy status and keeps the last-seen time |
| DetectionProperties.CountersDebounce | backend/app.py:160-244 | on an analysed frame each counter is old+1 iff its condition holds and 0 iff it does not |
| DetectionProperties.NoLandmarksKeepsAnalysis | backend/app.py:137 | with faces but no landmarks the counters, sleeping label and focus score are unchanged and only copy or system tags arise |
| DetectionProperties.QuietFaceFrameKeeps | backend/app.py:123-186 | a face frame on which nothing fires keeps the proctoring text, turning only "Student Absent!" back into "No Violations"; a face frame with closed or unmeasured eyes keeps the sleeping label unless the eye or yawn counter fires |
| DetectionProperties.OpenEyesAwake | backend/app.py:168-186 | open eyes and closed mouth give "Awake" unless the label was "Likely Sleeping", which stays |
| DetectionProperties.YawningClears | backend/app.py:182-186 | "Yawning" becomes "Awake" iff the frame is analysed with mouth closed and eyes open |
| DetectionProperties.LikelySleepingSticks | backend/app.py:160-186 | while a face is in view "Likely Sleeping" is replaced only by a firing yawn |
| DetectionProperties.DrowsinessOnlyWhenFiring | backend/app.py:160-167 | the likely-sleeping label, the drowsiness text and tag appear only when the eye counter reaches 10 on a closed-eye frame |
| DetectionProperties.OpenEyesStep | backend/app.py:168-172 | an open-eye frame zeroes the eye counter, reports no drowsiness and writes neither "Likely Sleeping" nor "Drowsiness Detected!" |
| DetectionProperties.EyeCounterBound | backend/app.py:161-169 | the eye counter grows by at most one per frame |
| DetectionProperties.ClosedEyeRunCounts | backend/app.py:161-162 | over consecutive closed-eye frames the eye counter grows by exactly one per frame |
| DetectionProperties.NoDrowsinessBeforeTenthFrame | backend/app.py:160-167 | from a zero counter no frame among the first nine reports drowsiness by tag, label or text |
| DetectionProperties.DrowsinessOnTenthFrame | backend/app.py:160-167 | ten quiet closed-eye frames give no tag on frames 1-9 and the drowsiness tag, "Likely Sleeping" and "Drowsiness Detected!" on the tenth |
| DetectionProperties.NineClosedThenOpen | backend/app.py:160-172 | nine closed-eye frames then an open one leave the counter at 0 and never report drowsiness |
| DetectionProperties.GazePenaltySaturates | backend/app.py:256-258 | the gaze penalty is within [0, 50] and is exactly 50 iff the head-pose counter is at least 30 |
| DetectionProperties.FocusWhileLookingAway | backend/app.py:249-261 | with the full gaze penalty and a non-negative MAR the focus score is at most 50 |
| DetectionProperties.FocusNonIncreasingInGaze | backend/app.py:256-261 | a longer head-turned streak never raises the focus score |
| DetectionProperties.FullFocus | backend/app.py:249-261 | open eyes, MAR 0 and a steady head score 100 |
| DetectionProperties.AbsenceThreshold | backend/app.py:274-290 | without a face the frame is absent iff more than 5 s passed since the last face (strictly); otherwise "No person detected"; the text keeps or sets "Student Absent!" or says "No Violations" |
| DetectionProperties.PresenceClearsAbsence | backend/app.py:117-125 | a frame with a face records its time, clears "Student Absent!" and never yields the absence tag |
| DetectionProperties.AbsenceMeasuredFromLastFace | backend/app.py:274-281 | over face-free frames the absence tag fires on frame k iff its time is more than 5 s after the last face seen before the run |
| Attentiveness.AttentivenessState.constructor | backend/app.py:31-47 | the initial state is the start-up values and satisfies the invariant |
| Attentiveness.AttentivenessState.ProcessFrame | backend/app.py:92-310 | the new state and the returned tag are those of `Step`, and the invariant is kept |
| Attentiveness.AttentivenessState.ObservePresence | backend/app.py:117-261 | every field after the faces-present branch, before the system event |
| Attentiveness.AttentivenessState.ObserveAbsence | backend/app.py:274-295 | every field after the no-face branch, before the system event |
| Attentiveness.AttentivenessState.AnalysePrimaryFace | backend/app.py:137-261 | counters, sleeping label, focus score, activity, proctoring text and tag after the landmark analysis |
| Attentiveness.AttentivenessState.UpdateEyeClosure | backend/app.py:160-172 | eye counter, sleeping label, proctoring text and tag after the EAR step |
| Attentiveness.AttentivenessState.UpdateYawn | backend/app.py:174-186 | yawn counter, sleeping label, proctoring text and tag after the MAR step |
| Attentiveness.AttentivenessState.UpdateHeadPose | backend/app.py:232-247 | head-pose counter, activity, proctoring text and tag after the head-pose step |
| Attentiveness.AttentivenessState.InjectSystemEvent | backend/app.py:298-307 | the simulated event overwrites both texts and sets the tag only if unset |

## Left out

- Face detection, landmark prediction, `solvePnP`/Rodrigues/RQ decomposition: foreign library calls. Their outputs (face count, landmarks present, EAR/MAR, yaw/pitch) are frame inputs.
- The square root inside the Euclidean distance: the distance is a parameter characterised by its square.
- `time.time()` and `random.random()`/`random.choice`: the clock reading and the outcome of the draw are frame inputs.
- The rounded yaw and pitch inside the "Looking Away (...)" text: floating-point rounding is not modelled, so the label has no numbers.
- Drawing boxes and landmark dots on the frame, JPEG encoding, the MJPEG generator, the Flask routes and the analytics endpoint's rounding: I/O and presentation, outside the detector's state logic.
- `global_current_alert_type` as a shared variable read by another thread: the tag is the method's return value, and concurrent readers are not modelled.
- Floating-point arithmetic: EAR, MAR, angles and the focus score are exact reals.
- AspectRatios.EyeAspectRatio, AspectRatios.MouthAspectRatio: the `requires eye[0] != eye[3]` / `mouth[0] != mouth[6]` leaves out coinciding corner points. On them the source's float64 division yields inf or NaN with a runtime warning rather than failing, and reals have no such values.
- The front-end script and the camera test script: not part of the detector.
