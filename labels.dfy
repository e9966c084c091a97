/**
  The status labels the detector publishes, one datatype per status field,
  each with the exact text the service reports for it, and the substring
  test that the detector's guards apply to those texts.
 */
module Labels {

  /** `needle in haystack` on strings: some contiguous slice of `s` equals `sub`. */
  predicate Contains(s: string, sub: string)
    ensures Contains(s, sub) ==> |sub| <= |s|
    ensures sub == [] ==> Contains(s, sub)
    decreases |s|
  {
    (|sub| <= |s| && s[..|sub|] == sub) || (|s| > 0 && Contains(s[1..], sub))
  }

  /** `sub` occurs in `s` starting at index `i`. */
  predicate OccursAt(s: string, sub: string, i: nat) {
    i + |sub| <= |s| && s[i..i + |sub|] == sub
  }

  /** `Contains` agrees with the direct definition of a substring occurrence. */
  lemma {:induction false} ContainsWitness(s: string, sub: string)
    ensures Contains(s, sub) <==> exists i: nat :: OccursAt(s, sub, i)
    decreases |s|
  {
    if |sub| <= |s| && s[..|sub|] == sub {
      assert OccursAt(s, sub, 0);
    }
    if |s| > 0 {
      ContainsWitness(s[1..], sub);
      if Contains(s[1..], sub) {
        var i: nat :| OccursAt(s[1..], sub, i);
        assert s[i + 1..i + 1 + |sub|] == s[1..][i..i + |sub|];
        assert OccursAt(s, sub, i + 1);
      }
      if exists i: nat :: OccursAt(s, sub, i) {
        var i: nat :| OccursAt(s, sub, i);
        if i > 0 {
          assert s[1..][i - 1..i - 1 + |sub|] == s[i..i + |sub|];
          assert OccursAt(s[1..], sub, i - 1);
        }
      }
    }
  }

  lemma ContainsPrefix(p: string, rest: string)
    ensures Contains(p + rest, p)
  {
    assert (p + rest)[..|p|] == p;
  }

  /** A string that lacks the first character of `sub` cannot contain `sub`. */
  lemma {:induction false} NotContainsWithoutFirstChar(s: string, sub: string)
    requires |sub| > 0 && sub[0] !in s
    ensures !Contains(s, sub)
    decreases |s|
  {
    if |sub| <= |s| {
      assert s[..|sub|][0] == s[0] && s[0] in s;
    }
    if |s| > 0 {
      assert forall k :: 0 <= k < |s| - 1 ==> s[1..][k] == s[k + 1];
      NotContainsWithoutFirstChar(s[1..], sub);
    }
  }

  /** The decimal digits of `n`, as Python's `str(n)` writes them. */
  function DecimalString(n: nat): (r: string)
    ensures |r| > 0
    ensures forall k :: 0 <= k < |r| ==> '0' <= r[k] <= '9'
    ensures n >= 1 ==> r[0] != '0'
    decreases n
  {
    if n < 10 then [Digit(n)] else DecimalString(n / 10) + [Digit(n % 10)]
  }

  function Digit(d: nat): (c: char)
    requires d < 10
    ensures '0' <= c <= '9' && c as int - '0' as int == d
  {
    ('0' as int + d) as char
  }

  /** Reads a string of decimal digits back as a number. */
  function DecimalValue(s: string): nat
    requires forall k :: 0 <= k < |s| ==> '0' <= s[k] <= '9'
  {
    if s == [] then 0
    else 10 * DecimalValue(s[..|s| - 1]) + (s[|s| - 1] as int - '0' as int)
  }

  lemma {:induction false} DecimalRoundTrip(n: nat)
    ensures DecimalValue(DecimalString(n)) == n
    decreases n
  {
    var r := DecimalString(n);
    if n >= 10 {
      DecimalRoundTrip(n / 10);
      assert r[..|r| - 1] == DecimalString(n / 10);
    }
  }

  /** `global_sleeping_status`. */
  datatype SleepStatus =
    | NoPersonDetected
    | Awake
    | LikelySleeping
    | YawningDetected
    | Absent
  {
    /** The yawning label is the one the open-eye reset compares the text against. */
    function Text(): (r: string)
      ensures r == "Yawning (AI Detected)" <==> this == YawningDetected
    {
      match this
      case NoPersonDetected => "No person detected"
      case Awake => "Awake"
      case LikelySleeping => "Likely Sleeping (Eyes Closed)"
      case YawningDetected => "Yawning (AI Detected)"
      case Absent => "No person detected - (Absent)"
    }
  }

  /**
    The guard on an open-eye frame tests the label TEXT for the substrings
    "Likely Sleeping" and "Yawning"; over the five labels that is exactly a
    test of which label it is.
   */
  lemma SleepingGuard(st: SleepStatus)
    ensures Contains(st.Text(), "Likely Sleeping") <==> st.LikelySleeping?
  {
    match st
    case LikelySleeping =>
      assert st.Text() == "Likely Sleeping" + " (Eyes Closed)";
      ContainsPrefix("Likely Sleeping", " (Eyes Closed)");
    case YawningDetected =>
      assert 'L' !in "Yawning (AI Detected)";
      NotContainsWithoutFirstChar(st.Text(), "Likely Sleeping");
    case NoPersonDetected =>
      assert 'L' !in "No person detected";
      NotContainsWithoutFirstChar(st.Text(), "Likely Sleeping");
    case Awake =>
      assert 'L' !in "Awake";
      NotContainsWithoutFirstChar(st.Text(), "Likely Sleeping");
    case Absent =>
      assert 'L' !in "No person detected - (Absent)";
      NotContainsWithoutFirstChar(st.Text(), "Likely Sleeping");
  }

  lemma YawningGuard(st: SleepStatus)
    ensures Contains(st.Text(), "Yawning") <==> st.YawningDetected?
  {
    match st
    case YawningDetected =>
      assert st.Text() == "Yawning" + " (AI Detected)";
      ContainsPrefix("Yawning", " (AI Detected)");
    case LikelySleeping =>
      assert 'Y' !in "Likely Sleeping (Eyes Closed)";
      NotContainsWithoutFirstChar(st.Text(), "Yawning");
    case NoPersonDetected =>
      assert 'Y' !in "No person detected";
      NotContainsWithoutFirstChar(st.Text(), "Yawning");
    case Awake =>
      assert 'Y' !in "Awake";
      NotContainsWithoutFirstChar(st.Text(), "Yawning");
    case Absent =>
      assert 'Y' !in "No person detected - (Absent)";
      NotContainsWithoutFirstChar(st.Text(), "Yawning");
  }

  /** `global_unauthorized_activity_status`. */
  datatype Activity =
    | NoneDetected
    | LookingAway
    | NoPersonSeen
    | SystemAccessViolation
  {
    /**
      The looking-away text also carries the rounded yaw and pitch, which are
      not modelled. "None Detected" is the reset value, and no violation reads as it.
     */
    function Text(): (r: string)
      ensures r == "None Detected" <==> this == NoneDetected
    {
      match this
      case NoneDetected => "None Detected"
      case LookingAway => "Looking Away"
      case NoPersonSeen => "No Person Detected"
      case SystemAccessViolation => "System Access Violation (Concept)"
    }
  }

  lemma SystemAccessGuard(a: Activity)
    ensures Contains(a.Text(), "System Access") <==> a.SystemAccessViolation?
  {
    match a
    case SystemAccessViolation =>
      assert a.Text() == "System Access" + " Violation (Concept)";
      ContainsPrefix("System Access", " Violation (Concept)");
    case NoneDetected =>
      assert 'S' !in "None Detected";
      NotContainsWithoutFirstChar(a.Text(), "System Access");
    case LookingAway =>
      assert 'S' !in "Looking Away";
      NotContainsWithoutFirstChar(a.Text(), "System Access");
    case NoPersonSeen =>
      assert 'S' !in "No Person Detected";
      NotContainsWithoutFirstChar(a.Text(), "System Access");
  }

  /** `global_copy_attempt_status`. */
  datatype CopyStatus =
    | NoCopyAttempt
    | MultiplePersons(count: nat)
  {
    function Text(): (r: string)
      ensures NoCopyAttempt? <==> r == "None Detected"
    {
      match this
      case NoCopyAttempt => "None Detected"
      case MultiplePersons(n) => "Multiple Persons Detected (" + DecimalString(n) + ")!"
    }
  }

  /** The three messages the simulated system-level event picks from. */
  datatype SystemMessage = TabSwitched | ExternalApp | SystemViolationMessage
  {
    /** No simulated-event text reads as the absence alert the detector compares against. */
    function Text(): (r: string)
      ensures r != "Student Absent!"
    {
      match this
      case TabSwitched => "Tab Switched! (Concept)"
      case ExternalApp => "External App Detected! (Concept)"
      case SystemViolationMessage => "System Violation! (Concept)"
    }
  }

  /** `global_proctoring_alert_status`. */
  datatype ProctorAlert =
    | NoViolations
    | PotentialCheating
    | DrowsinessDetected
    | YawnDetected
    | AttentionDiverted
    | StudentAbsent
    | SystemAlert(message: SystemMessage)
  {
    /** The detector's `== "Student Absent!"` and `!= "Student Absent!"` tests pick out exactly the absence alert. */
    function Text(): (r: string)
      ensures r == "Student Absent!" <==> this == StudentAbsent
    {
      match this
      case NoViolations => "No Violations"
      case PotentialCheating => "Potential Cheating!"
      case DrowsinessDetected => "Drowsiness Detected!"
      case YawnDetected => "Yawn Detected - Low Alertness"
      case AttentionDiverted => "Attention Diverted!"
      case StudentAbsent => "Student Absent!"
      case SystemAlert(m) => m.Text()
    }
  }

  /** The per-frame alert tag returned to the stream driver. */
  datatype AlertType =
    | CopyAttempt
    | Drowsiness
    | Yawn
    | GazeViolation
    | AbsentViolation
    | SystemViolation
  {
    /** A tag is never the empty string, so a tagged frame never reads as an untagged one. */
    function Tag(): (r: string)
      ensures |r| > 0
    {
      match this
      case CopyAttempt => "copy_attempt"
      case Drowsiness => "drowsiness"
      case Yawn => "yawn"
      case GazeViolation => "gaze_violation"
      case AbsentViolation => "absent_violation"
      case SystemViolation => "system_violation"
    }

    /** Position in the order in which the detector tries to assign the tag; lower wins. */
    function Rank(): nat {
      match this
      case CopyAttempt => 0
      case Drowsiness => 1
      case Yawn => 2
      case GazeViolation => 3
      case AbsentViolation => 4
      case SystemViolation => 5
    }
  }

  /** Distinct labels publish distinct texts, so comparing texts is comparing labels. */
  lemma SleepStatusTextsDistinct(a: SleepStatus, b: SleepStatus)
    ensures a.Text() == b.Text() <==> a == b
  {
  }

  /** The copy-attempt text names the face count, so two texts agree only for the same count. */
  lemma CopyStatusTextsDistinct(a: CopyStatus, b: CopyStatus)
    ensures a.Text() == b.Text() <==> a == b
  {
    if a.MultiplePersons? && b.MultiplePersons? && a.Text() == b.Text() {
      var prefix := "Multiple Persons Detected (";
      var t := a.Text();
      assert t == prefix + DecimalString(a.count) + ")!";
      assert b.Text() == prefix + DecimalString(b.count) + ")!";
      assert t[|prefix|..|t| - 2] == DecimalString(a.count);
      assert b.Text()[|prefix|..|t| - 2] == DecimalString(b.count);
      DecimalRoundTrip(a.count);
      DecimalRoundTrip(b.count);
    }
  }

  lemma ActivityTextsDistinct(a: Activity, b: Activity)
    ensures a.Text() == b.Text() <==> a == b
  {
  }

  lemma ProctorAlertTextsDistinct(a: ProctorAlert, b: ProctorAlert)
    ensures a.Text() == b.Text() <==> a == b
  {
    if a.Text() == b.Text() {
      assert |a.Text()| == |b.Text()| && a.Text()[0] == b.Text()[0];
    }
  }

  lemma AlertTagsDistinct(a: AlertType, b: AlertType)
    ensures a.Tag() == b.Tag() <==> a == b
  {
  }

}
