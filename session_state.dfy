/**
 * The per-student session state: a three-valued status (focused, confused,
 * proctor alert) fused from face-count, gaze and confusion updates. It keeps
 * its own gaze-away timer and a face-absence mark. A proctor alert is
 * sticky: no update leaves it, only `reset` does.
 *
 * Wall-clock time is the explicit parameter `now` (seconds, exact reals).
 */
module SessionStatus {
  import opened Wrappers

  datatype StudentStatus = Focused | Confused | ProctorAlert
  {
    /** The enumeration's string value, as reported in snapshots. */
    function Value(): string
    {
      match this
      case Focused => "focused"
      case Confused => "confused"
      case ProctorAlert => "proctor_alert"
    }
  }

  /** A snapshot's status string names exactly one status. */
  lemma StatusValueIdentifies(a: StudentStatus, b: StudentStatus)
    ensures a.Value() == b.Value() <==> a == b
  {
    assert "focused"[0] != "confused"[0] && "focused"[0] != "proctor_alert"[0] && "confused"[0] != "proctor_alert"[0];
  }

  /** The session's state as a value. */
  datatype Session = Session(
    gazeAwayThreshold: real,
    lastGazeCentered: real,
    faceMissingSince: Option<real>,
    multiFaceDetected: bool,
    status: StudentStatus)

  function InitialSession(gazeAwayThreshold: real, now: real): Session
  {
    Session(gazeAwayThreshold, now, None, false, Focused)
  }

  /** The state `update_gaze` leaves behind. */
  function GazeStep(s: Session, gazeCentered: bool, now: real): Session
  {
    if gazeCentered then s.(lastGazeCentered := now)
    else if now - s.lastGazeCentered >= s.gazeAwayThreshold then s.(status := ProctorAlert)
    else s
  }

  /** The state `update_face_count` leaves behind. */
  function FaceCountStep(s: Session, faceCount: int, now: real): Session
  {
    if faceCount == 1 then s.(faceMissingSince := None, multiFaceDetected := false)
    else if faceCount == 0 then
      if s.faceMissingSince.None? then s.(faceMissingSince := Some(now))
      else s.(status := ProctorAlert)
    else s.(multiFaceDetected := true, status := ProctorAlert)
  }

  /** The state `update_confusion` leaves behind. */
  function ConfusionStep(s: Session, isConfused: bool): Session
  {
    if s.status == ProctorAlert then s
    else s.(status := if isConfused then Confused else Focused)
  }

  /** What `snapshot` returns. */
  datatype Report = Report(status: string, timestamp: real)

  // ---------------------------------------------------------------------
  // Histories of updates
  // ---------------------------------------------------------------------

  datatype Update = FaceCount(faceCount: int) | Gaze(gazeCentered: bool) | Confusion(isConfused: bool)

  datatype TimedUpdate = TimedUpdate(update: Update, at: real)

  function Apply(s: Session, u: TimedUpdate): Session
  {
    match u.update
    case FaceCount(n) => FaceCountStep(s, n, u.at)
    case Gaze(c) => GazeStep(s, c, u.at)
    case Confusion(c) => ConfusionStep(s, c)
  }

  /** The session after the updates `us`, in order. */
  function ApplyAll(s: Session, us: seq<TimedUpdate>): Session
    decreases |us|
  {
    if us == [] then s else Apply(ApplyAll(s, us[..|us| - 1]), us[|us| - 1])
  }

  /** An update that by itself may raise a proctor alert. */
  predicate MayAlert(u: Update)
  {
    (u.FaceCount? && u.faceCount != 1) || (u.Gaze? && !u.gazeCentered)
  }

  /** The sticky-alert invariant: no sequence of updates leaves a proctor alert. */
  lemma {:induction false} AlertIsSticky(s: Session, us: seq<TimedUpdate>)
    requires s.status == ProctorAlert
    ensures ApplyAll(s, us).status == ProctorAlert
  {
    if us != [] {
      AlertIsSticky(s, us[..|us| - 1]);
    }
  }

  /**
   * A proctor alert has a cause: if a history raises one, some update in it
   * was a face count other than one or an off-centre gaze. Confusion updates
   * never raise it.
   */
  lemma {:induction false} AlertHasCause(s: Session, us: seq<TimedUpdate>)
    requires s.status != ProctorAlert
    requires ApplyAll(s, us).status == ProctorAlert
    ensures exists i :: 0 <= i < |us| && MayAlert(us[i].update)
  {
    var pre := us[..|us| - 1];
    if ApplyAll(s, pre).status == ProctorAlert {
      AlertHasCause(s, pre);
      var i :| 0 <= i < |pre| && MayAlert(pre[i].update);
      assert us[i] == pre[i];
    } else {
      assert MayAlert(us[|us| - 1].update);
    }
  }

  /** Without an alert, the last confusion update alone decides between focused and confused. */
  lemma {:induction false} ConfusionDecidesWithoutAlert(s: Session, us: seq<TimedUpdate>, isConfused: bool, now: real)
    requires ApplyAll(s, us + [TimedUpdate(Confusion(isConfused), now)]).status != ProctorAlert
    ensures ApplyAll(s, us + [TimedUpdate(Confusion(isConfused), now)]).status == if isConfused then Confused else Focused
  {
    assert (us + [TimedUpdate(Confusion(isConfused), now)])[..|us|] == us;
  }

  // ---------------------------------------------------------------------
  // Face-absence bookkeeping: "seen absent twice", not a duration
  // ---------------------------------------------------------------------

  /** One face count and the time it was reported. */
  datatype FaceReading = FaceReading(count: int, at: real)

  function CountAll(s: Session, fs: seq<FaceReading>): Session
    decreases |fs|
  {
    if fs == [] then s
    else FaceCountStep(CountAll(s, fs[..|fs| - 1]), fs[|fs| - 1].count, fs[|fs| - 1].at)
  }

  /** No reading strictly between positions `i` and `j` shows exactly one face. */
  ghost predicate NoSingleFaceBetween(fs: seq<FaceReading>, i: int, j: int)
  {
    forall k :: i < k < j && 0 <= k < |fs| ==> fs[k].count != 1
  }

  /** The face has been seen missing since the last single-face reading. */
  ghost predicate MissingSinceLastSingle(fs: seq<FaceReading>)
  {
    exists i :: 0 <= i < |fs| && fs[i].count == 0 && NoSingleFaceBetween(fs, i, |fs|)
  }

  /** More than one face (or a nonsensical count) has been seen since the last single-face reading. */
  ghost predicate CrowdSinceLastSingle(fs: seq<FaceReading>)
  {
    exists i :: 0 <= i < |fs| && fs[i].count != 0 && fs[i].count != 1 && NoSingleFaceBetween(fs, i, |fs|)
  }

  /** Two readings without a face, with no single-face reading between them. */
  ghost predicate AbsentTwice(fs: seq<FaceReading>)
  {
    exists i, j :: 0 <= i < j < |fs| && fs[i].count == 0 && fs[j].count == 0 && NoSingleFaceBetween(fs, i, j)
  }

  ghost predicate EverCrowded(fs: seq<FaceReading>)
  {
    exists i :: 0 <= i < |fs| && fs[i].count != 0 && fs[i].count != 1
  }

  lemma AppendPreservesBetween(fs: seq<FaceReading>, r: FaceReading, i: int, j: int)
    requires j <= |fs|
    ensures NoSingleFaceBetween(fs + [r], i, j) <==> NoSingleFaceBetween(fs, i, j)
  {
    if NoSingleFaceBetween(fs, i, j) {
      forall k | i < k < j && 0 <= k < |fs + [r]| ensures (fs + [r])[k].count != 1 {
        assert (fs + [r])[k] == fs[k];
      }
    }
    if NoSingleFaceBetween(fs + [r], i, j) {
      forall k | i < k < j && 0 <= k < |fs| ensures fs[k].count != 1 {
        assert (fs + [r])[k] == fs[k];
      }
    }
  }

  /** Extending a history by one reading, for each of the reference predicates. */
  lemma EverCrowdedAppend(pre: seq<FaceReading>, r: FaceReading)
    ensures EverCrowded(pre + [r]) <==> EverCrowded(pre) || (r.count != 0 && r.count != 1)
  {
    var fs, n := pre + [r], |pre|;
    if EverCrowded(pre) {
      var i :| 0 <= i < n && pre[i].count != 0 && pre[i].count != 1;
      assert fs[i] == pre[i];
    }
    if r.count != 0 && r.count != 1 {
      assert fs[n] == r;
    }
    if EverCrowded(fs) {
      var i :| 0 <= i < n + 1 && fs[i].count != 0 && fs[i].count != 1;
      if i < n { assert pre[i] == fs[i]; }
    }
  }

  lemma AbsentTwiceAppend(pre: seq<FaceReading>, r: FaceReading)
    ensures AbsentTwice(pre + [r]) <==> AbsentTwice(pre) || (r.count == 0 && MissingSinceLastSingle(pre))
  {
    var fs, n := pre + [r], |pre|;
    if AbsentTwice(pre) {
      var i, j :| 0 <= i < j < n && pre[i].count == 0 && pre[j].count == 0 && NoSingleFaceBetween(pre, i, j);
      AppendPreservesBetween(pre, r, i, j);
      assert fs[i] == pre[i] && fs[j] == pre[j];
    }
    if r.count == 0 && MissingSinceLastSingle(pre) {
      var i :| 0 <= i < n && pre[i].count == 0 && NoSingleFaceBetween(pre, i, n);
      AppendPreservesBetween(pre, r, i, n);
      assert fs[i] == pre[i] && fs[n] == r;
    }
    if AbsentTwice(fs) {
      var i, j :| 0 <= i < j < n + 1 && fs[i].count == 0 && fs[j].count == 0 && NoSingleFaceBetween(fs, i, j);
      assert fs[i] == pre[i];
      AppendPreservesBetween(pre, r, i, j);
      if j < n {
        assert fs[j] == pre[j];
      } else {
        assert fs[j] == r;
      }
    }
  }

  lemma MissingAppend(pre: seq<FaceReading>, r: FaceReading)
    ensures MissingSinceLastSingle(pre + [r]) <==> r.count == 0 || (r.count != 1 && MissingSinceLastSingle(pre))
  {
    var fs, n := pre + [r], |pre|;
    if r.count == 0 {
      assert fs[n] == r;
      assert NoSingleFaceBetween(fs, n, n + 1);
    }
    if r.count != 1 && MissingSinceLastSingle(pre) {
      var i :| 0 <= i < n && pre[i].count == 0 && NoSingleFaceBetween(pre, i, n);
      AppendPreservesBetween(pre, r, i, n);
      assert fs[i] == pre[i] && fs[n] == r;
    }
    if MissingSinceLastSingle(fs) {
      var i :| 0 <= i < n + 1 && fs[i].count == 0 && NoSingleFaceBetween(fs, i, n + 1);
      if i < n {
        assert pre[i] == fs[i];
        assert fs[n] == r;
        AppendPreservesBetween(pre, r, i, n);
      } else {
        assert fs[i] == r;
      }
    }
  }

  lemma CrowdAppend(pre: seq<FaceReading>, r: FaceReading)
    ensures CrowdSinceLastSingle(pre + [r]) <==> (r.count != 0 && r.count != 1) || (r.count != 1 && CrowdSinceLastSingle(pre))
  {
    var fs, n := pre + [r], |pre|;
    if r.count != 0 && r.count != 1 {
      assert fs[n] == r;
      assert NoSingleFaceBetween(fs, n, n + 1);
    }
    if r.count != 1 && CrowdSinceLastSingle(pre) {
      var i :| 0 <= i < n && pre[i].count != 0 && pre[i].count != 1 && NoSingleFaceBetween(pre, i, n);
      AppendPreservesBetween(pre, r, i, n);
      assert fs[i] == pre[i] && fs[n] == r;
    }
    if CrowdSinceLastSingle(fs) {
      var i :| 0 <= i < n + 1 && fs[i].count != 0 && fs[i].count != 1 && NoSingleFaceBetween(fs, i, n + 1);
      if i < n {
        assert pre[i] == fs[i];
        assert fs[n] == r;
        AppendPreservesBetween(pre, r, i, n);
      } else {
        assert fs[i] == r;
      }
    }
  }

  /**
   * The meaning of the face-count updates, from a fresh session: the missing
   * mark is set iff a no-face reading came after the last single-face one;
   * the multi-face flag is set iff a crowded reading came after it; and the
   * session is in proctor alert iff the face was seen absent twice with no
   * single-face reading between, or a crowded reading was ever seen.
   */
  lemma {:induction false} FaceAbsenceMeaning(threshold: real, start: real, fs: seq<FaceReading>)
    ensures var s := CountAll(InitialSession(threshold, start), fs);
      && (s.faceMissingSince.Some? <==> MissingSinceLastSingle(fs))
      && (s.multiFaceDetected <==> CrowdSinceLastSingle(fs))
      && (s.status == ProctorAlert <==> AbsentTwice(fs) || EverCrowded(fs))
      && (s.status != ProctorAlert ==> s.status == Focused)
  {
    if fs != [] {
      var pre, r := fs[..|fs| - 1], fs[|fs| - 1];
      assert fs == pre + [r];
      FaceAbsenceMeaning(threshold, start, pre);
      EverCrowdedAppend(pre, r);
      AbsentTwiceAppend(pre, r);
      MissingAppend(pre, r);
      CrowdAppend(pre, r);
    }
  }

  /** The session object: every update assigns its fields in place. */
  class SessionState {
    const gazeAwayThreshold: real
    var lastGazeCenteredTime: real
    var faceMissingSince: Option<real>
    var multiFaceDetected: bool
    var currentStatus: StudentStatus

    function Model(): Session
      reads this
    {
      Session(gazeAwayThreshold, lastGazeCenteredTime, faceMissingSince, multiFaceDetected, currentStatus)
    }

    constructor (gazeAwayThreshold: real, now: real)
      ensures this.gazeAwayThreshold == gazeAwayThreshold && lastGazeCenteredTime == now
      ensures faceMissingSince == None && !multiFaceDetected && currentStatus == Focused
      ensures Model() == InitialSession(gazeAwayThreshold, now)
    {
      this.gazeAwayThreshold := gazeAwayThreshold;
      lastGazeCenteredTime := now;
      faceMissingSince := None;
      multiFaceDetected := false;
      currentStatus := Focused;
    }

    /** A centred gaze restarts the timer; an off-centre one raises an alert once the threshold has passed. */
    method UpdateGaze(gazeCentered: bool, now: real)
      modifies this
      ensures faceMissingSince == old(faceMissingSince) && multiFaceDetected == old(multiFaceDetected)
      ensures gazeCentered ==> lastGazeCenteredTime == now && currentStatus == old(currentStatus)
      ensures !gazeCentered ==> lastGazeCenteredTime == old(lastGazeCenteredTime)
      ensures !gazeCentered ==> (currentStatus == ProctorAlert
                                 <==> old(currentStatus) == ProctorAlert || now - old(lastGazeCenteredTime) >= gazeAwayThreshold)
      ensures currentStatus != ProctorAlert ==> currentStatus == old(currentStatus)
      ensures Model() == GazeStep(old(Model()), gazeCentered, now)
    {
      if gazeCentered {
        lastGazeCenteredTime := now;
      } else if now - lastGazeCenteredTime >= gazeAwayThreshold {
        currentStatus := ProctorAlert;
      }
    }

    /**
     * One face clears both marks but leaves the status alone (it never clears
     * an alert); a first missing face only sets the mark, a second one with no
     * single face between raises an alert; more faces raise an alert at once.
     */
    method UpdateFaceCount(faceCount: int, now: real)
      modifies this
      ensures lastGazeCenteredTime == old(lastGazeCenteredTime)
      ensures faceCount == 1 ==> faceMissingSince == None && !multiFaceDetected && currentStatus == old(currentStatus)
      ensures faceCount == 0 && old(faceMissingSince).None? ==>
                faceMissingSince == Some(now) && multiFaceDetected == old(multiFaceDetected) && currentStatus == old(currentStatus)
      ensures faceCount == 0 && old(faceMissingSince).Some? ==>
                faceMissingSince == old(faceMissingSince) && multiFaceDetected == old(multiFaceDetected) && currentStatus == ProctorAlert
      ensures faceCount != 0 && faceCount != 1 ==>
                faceMissingSince == old(faceMissingSince) && multiFaceDetected && currentStatus == ProctorAlert
      ensures Model() == FaceCountStep(old(Model()), faceCount, now)
    {
      if faceCount == 1 {
        faceMissingSince := None;
        multiFaceDetected := false;
      } else if faceCount == 0 {
        if faceMissingSince.None? {
          faceMissingSince := Some(now);
        } else {
          currentStatus := ProctorAlert;
        }
      } else {
        multiFaceDetected := true;
        currentStatus := ProctorAlert;
      }
    }

    /** A no-op under an alert; otherwise the status becomes confused iff `isConfused`. */
    method UpdateConfusion(isConfused: bool)
      modifies this
      ensures lastGazeCenteredTime == old(lastGazeCenteredTime)
      ensures faceMissingSince == old(faceMissingSince) && multiFaceDetected == old(multiFaceDetected)
      ensures old(currentStatus) == ProctorAlert ==> currentStatus == ProctorAlert
      ensures old(currentStatus) != ProctorAlert ==> currentStatus == if isConfused then Confused else Focused
      ensures Model() == ConfusionStep(old(Model()), isConfused)
    {
      if currentStatus == ProctorAlert {
        return;
      }
      if isConfused {
        currentStatus := Confused;
      } else {
        currentStatus := Focused;
      }
    }

    /** A read-only report: the status string names the current status. */
    function Snapshot(now: real): (r: Report)
      reads this
      ensures r.timestamp == now
      ensures forall st: StudentStatus :: r.status == st.Value() <==> st == currentStatus
    {
      forall st: StudentStatus ensures st.Value() == currentStatus.Value() <==> st == currentStatus {
        StatusValueIdentifies(st, currentStatus);
      }
      Report(currentStatus.Value(), now)
    }

    /** Back to the initial state: focused, timer restarted, both marks cleared. */
    method Reset(now: real)
      modifies this
      ensures lastGazeCenteredTime == now && faceMissingSince == None && !multiFaceDetected && currentStatus == Focused
      ensures Model() == InitialSession(gazeAwayThreshold, now)
    {
      lastGazeCenteredTime := now;
      faceMissingSince := None;
      multiFaceDetected := false;
      currentStatus := Focused;
    }
  }
}
