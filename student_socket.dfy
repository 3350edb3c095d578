/**
 * The student connection's processing loop: for every inbound message it
 * updates the session with the face count, then the gaze, then the
 * confusion signal, and broadcasts a snapshot to every teacher.
 *
 * Decoding a frame and running the face and feature detectors are outside
 * this model: a payload carries what those collaborators report (the number
 * of faces, and the eye-strain and head-tilt features of the single face).
 * Each frame is processed at one clock reading `now`.
 */
module StudentSocket {
  import opened Wrappers
  import opened GazeTracking
  import opened ConfusionLogic
  import opened SessionStatus
  import opened ConnectionRegistry

  /** The three configuration constants. */
  datatype Config = Config(gazeAwayThreshold: real, confusionMinDuration: real, headTiltThreshold: real)

  /** What the face detector and the feature extractor report for one decoded frame. */
  datatype Observation = Observation(faceCount: nat, eyeStrain: bool, headTilt: real)

  /** One parsed inbound message; a missing key is `None`. */
  datatype Payload = Payload(frame: Option<Observation>, gazeDirection: Option<string>)

  /** The snapshot broadcast to teachers. */
  datatype Message = Message(status: string, timestamp: real, gazeDirection: string, faceCount: nat)

  /**
   * What handling one message amounts to: it is skipped, it raises the
   * ValueError of an unknown gaze direction (which ends the loop), or a
   * message is broadcast.
   */
  datatype Outcome = Skipped | Crashed | Broadcast(message: Message)

  /** The per-connection state: the session, the gaze tracker and the confusion detector. */
  datatype Pipeline = Pipeline(session: Session, tracker: Tracker, detector: Detector)

  function StartPipeline(cfg: Config, now: real): Pipeline
  {
    Pipeline(
      InitialSession(cfg.gazeAwayThreshold, now),
      InitialTracker(cfg.gazeAwayThreshold, now),
      InitialDetector(cfg.confusionMinDuration, cfg.headTiltThreshold))
  }

  datatype FrameResult = FrameResult(outcome: Outcome, next: Pipeline)

  /** One pass of the loop body, as a function of the state before it. */
  function HandleFrame(p: Pipeline, payload: Payload, now: real): FrameResult
  {
    if payload.frame.None? || payload.gazeDirection.None? then FrameResult(Skipped, p)
    else
      var obs := payload.frame.value;
      var afterFaces := FaceCountStep(p.session, obs.faceCount, now);
      match ParseDirection(payload.gazeDirection.value)
      case None => FrameResult(Crashed, p.(session := afterFaces))
      case Some(d) =>
        var tracker := Track(p.tracker, d, now);
        var afterGaze := GazeStep(afterFaces, d == Center, now);
        var detector :=
          if obs.faceCount == 1 then Detect(p.detector, Signals(obs.eyeStrain, obs.headTilt, d == Center), now)
          else p.detector;
        var isConfused := obs.faceCount == 1 && detector.confused;
        var session := ConfusionStep(afterGaze, isConfused);
        var message := Message(session.status.Value(), now, tracker.direction.Value(), obs.faceCount);
        FrameResult(Broadcast(message), Pipeline(session, tracker, detector))
  }

  /** A message without a frame or without a gaze direction is skipped and changes nothing. */
  lemma IncompletePayloadSkipped(p: Pipeline, payload: Payload, now: real)
    requires payload.frame.None? || payload.gazeDirection.None?
    ensures HandleFrame(p, payload, now) == FrameResult(Skipped, p)
  {
  }

  /**
   * A complete message ends the loop exactly when its gaze direction is not
   * one of the five names; by then the face count has already been applied,
   * and nothing else has changed.
   */
  lemma UnknownDirectionCrashes(p: Pipeline, obs: Observation, direction: string, now: real)
    ensures var r := HandleFrame(p, Payload(Some(obs), Some(direction)), now);
      && (r.outcome == Crashed <==> direction !in DirectionNames)
      && (r.outcome == Crashed ==> r.next == p.(session := FaceCountStep(p.session, obs.faceCount, now)))
      && (r.outcome != Crashed ==> r.outcome.Broadcast?)
  {
  }

  /**
   * The broadcast message reports the session's new status by name, echoes
   * the gaze direction received, and carries the face count and the time.
   */
  lemma MessageReportsState(p: Pipeline, obs: Observation, direction: string, now: real)
    requires direction in DirectionNames
    ensures var r := HandleFrame(p, Payload(Some(obs), Some(direction)), now);
      && r.outcome.Broadcast?
      && (forall st: StudentStatus :: r.outcome.message.status == st.Value() <==> st == r.next.session.status)
      && r.outcome.message.gazeDirection == direction
      && r.outcome.message.faceCount == obs.faceCount
      && r.outcome.message.timestamp == now
  {
    var r := HandleFrame(p, Payload(Some(obs), Some(direction)), now);
    forall st: StudentStatus
      ensures r.outcome.message.status == st.Value() <==> st == r.next.session.status
    {
      StatusValueIdentifies(st, r.next.session.status);
    }
  }

  /**
   * The confusion detector only sees frames with exactly one face, so its
   * streak survives frames with no face or several; on a single-face frame
   * it is fed the frame's features and whether the gaze is centred.
   */
  lemma DetectorSeesSingleFacesOnly(p: Pipeline, obs: Observation, d: GazeDirection, now: real)
    ensures var r := HandleFrame(p, Payload(Some(obs), Some(d.Value())), now);
      && (obs.faceCount != 1 ==> r.next.detector == p.detector)
      && (obs.faceCount == 1 ==> r.next.detector == Detect(p.detector, Signals(obs.eyeStrain, obs.headTilt, d == Center), now))
  {
    ParseValue(d);
  }

  /**
   * Because `update_confusion` is always called, with "not confused" unless
   * exactly one face is seen, a confused session that loses the face for one
   * frame (without a gaze alert) is reported focused on that frame.
   */
  lemma FaceLossDowngradesConfusion(p: Pipeline, obs: Observation, now: real)
    requires p.session.status == Confused && p.session.faceMissingSince.None?
    requires obs.faceCount == 0
    ensures var r := HandleFrame(p, Payload(Some(obs), Some("center")), now);
      && r.outcome.Broadcast?
      && r.outcome.message.status == "focused"
      && r.next.session.status == Focused
      && r.next.session.faceMissingSince == Some(now)
  {
  }

  /** No message moves a session out of a proctor alert. */
  lemma AlertSurvivesFrame(p: Pipeline, payload: Payload, now: real)
    requires p.session.status == ProctorAlert
    ensures HandleFrame(p, payload, now).next.session.status == ProctorAlert
  {
  }

  /**
   * With one clock reading per frame (and per construction), the session's
   * gaze timer and the gaze tracker's are fed the same times and stay equal;
   * so whenever the tracker reports "away too long" (a result the loop
   * discards) the session raises its own alert on the same frame.
   */
  lemma TimersAgree(p: Pipeline, obs: Observation, d: GazeDirection, now: real)
    requires p.session.lastGazeCentered == p.tracker.lastCentered
    requires p.session.gazeAwayThreshold == p.tracker.awayThreshold
    ensures var r := HandleFrame(p, Payload(Some(obs), Some(d.Value())), now);
      && r.next.session.lastGazeCentered == r.next.tracker.lastCentered
      && r.next.session.gazeAwayThreshold == r.next.tracker.awayThreshold
      && (AwayTooLong(p.tracker, d, now) ==> r.next.session.status == ProctorAlert)
  {
    ParseValue(d);
  }

  // ---------------------------------------------------------------------
  // The loop over a connection's messages
  // ---------------------------------------------------------------------

  /** The state of the loop: per-connection state, the registry's teacher list, what each message amounted to. */
  datatype RunState = RunState(pipeline: Pipeline, teachers: seq<Socket>, outcomes: seq<Outcome>, crashed: bool)

  /** The outcomes of frame `frame`'s sends to the `count` teachers registered, in order. */
  function SendResults(frame: nat, count: nat, sendOk: (nat, nat) -> bool): seq<bool>
  {
    seq(count, j requires 0 <= j < count => sendOk(frame, j))
  }

  /** The loop after its first `n` messages; after an unknown gaze direction nothing more happens. */
  function RunFrames(start: RunState, payloads: seq<Payload>, times: seq<real>, sendOk: (nat, nat) -> bool, n: nat): RunState
    requires |times| == |payloads| && n <= |payloads|
  {
    if n == 0 then start
    else
      var prev := RunFrames(start, payloads, times, sendOk, n - 1);
      if prev.crashed then prev
      else
        var r := HandleFrame(prev.pipeline, payloads[n - 1], times[n - 1]);
        var teachers :=
          if r.outcome.Broadcast? then Pruned(prev.teachers, SendResults(n - 1, |prev.teachers|, sendOk))
          else prev.teachers;
        RunState(r.next, teachers, prev.outcomes + [r.outcome], r.outcome.Crashed?)
  }

  /** Once the loop has ended on an unknown direction, later messages are never handled. */
  lemma {:induction false} CrashIsFinal(start: RunState, payloads: seq<Payload>, times: seq<real>, sendOk: (nat, nat) -> bool, m: nat, n: nat)
    requires |times| == |payloads| && m <= n <= |payloads|
    requires RunFrames(start, payloads, times, sendOk, m).crashed
    ensures RunFrames(start, payloads, times, sendOk, n) == RunFrames(start, payloads, times, sendOk, m)
    decreases n
  {
    if m < n {
      CrashIsFinal(start, payloads, times, sendOk, m, n - 1);
    }
  }

  predicate AlertBroadcast(o: Outcome)
  {
    o.Broadcast? && o.message.status == "proctor_alert"
  }

  /**
   * Once a student's connection has broadcast a proctor alert, every later
   * message it broadcasts is a proctor alert too.
   */
  lemma {:induction false} AlertBroadcastIsFinal(start: RunState, payloads: seq<Payload>, times: seq<real>, sendOk: (nat, nat) -> bool, n: nat)
    requires |times| == |payloads| && n <= |payloads|
    requires start.outcomes == []
    ensures var outs := RunFrames(start, payloads, times, sendOk, n).outcomes;
      forall i, j :: 0 <= i < j < |outs| && AlertBroadcast(outs[i]) && outs[j].Broadcast? ==> AlertBroadcast(outs[j])
    ensures var run := RunFrames(start, payloads, times, sendOk, n);
      (exists i :: 0 <= i < |run.outcomes| && AlertBroadcast(run.outcomes[i])) ==> run.pipeline.session.status == ProctorAlert
    decreases n
  {
    if n > 0 {
      AlertBroadcastIsFinal(start, payloads, times, sendOk, n - 1);
      var prev := RunFrames(start, payloads, times, sendOk, n - 1);
      if !prev.crashed {
        var r := HandleFrame(prev.pipeline, payloads[n - 1], times[n - 1]);
        var outs := prev.outcomes + [r.outcome];
        var m := |prev.outcomes|;
        if exists i :: 0 <= i < m && AlertBroadcast(prev.outcomes[i]) {
          AlertSurvivesFrame(prev.pipeline, payloads[n - 1], times[n - 1]);
        }
        if AlertBroadcast(r.outcome) {
          StatusValueIdentifies(r.next.session.status, ProctorAlert);
        }
        forall i, j | 0 <= i < j < |outs| && AlertBroadcast(outs[i]) && outs[j].Broadcast?
          ensures AlertBroadcast(outs[j])
        {
          assert outs[i] == prev.outcomes[i];
          if j < m {
            assert outs[j] == prev.outcomes[j];
          } else {
            StatusValueIdentifies(r.next.session.status, ProctorAlert);
          }
        }
        if exists i :: 0 <= i < |outs| && AlertBroadcast(outs[i]) {
          var i :| 0 <= i < |outs| && AlertBroadcast(outs[i]);
          if i < m {
            assert outs[i] == prev.outcomes[i];
          }
        }
      }
    }
  }

  /**
   * The loop body on the connection's objects: face count, then gaze, then
   * confusion, then the snapshot broadcast to the teachers registered at
   * that moment; `sendOk[i]` is the outcome of the send to the i-th.
   */
  method ProcessFrame(manager: ConnectionManager, session: SessionState, tracker: GazeTracker, detector: ConfusionDetector,
                      payload: Payload, now: real, sendOk: seq<bool>)
    returns (outcome: Outcome, delivered: seq<Socket>)
    requires detector.Valid()
    requires |sendOk| == |manager.teachers|
    modifies manager, session, tracker, detector
    ensures detector.Valid()
    ensures var r := HandleFrame(old(Pipeline(session.Model(), tracker.Model(), detector.Model())), payload, now);
      outcome == r.outcome && Pipeline(session.Model(), tracker.Model(), detector.Model()) == r.next
    ensures manager.students == old(manager.students)
    ensures outcome.Broadcast? ==> manager.teachers == Pruned(old(manager.teachers), sendOk)
                                   && delivered == Delivered(old(manager.teachers), sendOk, |sendOk|)
    ensures !outcome.Broadcast? ==> manager.teachers == old(manager.teachers) && delivered == []
  {
    if payload.frame.None? || payload.gazeDirection.None? {
      return Skipped, [];
    }
    var obs := payload.frame.value;
    var faceCount := obs.faceCount;
    session.UpdateFaceCount(faceCount, now);

    var parsed := ParseDirection(payload.gazeDirection.value);
    if parsed.None? {
      return Crashed, [];
    }
    var gazeDirection := parsed.value;
    var _ := tracker.Update(gazeDirection, now);
    session.UpdateGaze(gazeDirection == Center, now);

    var isConfused := false;
    if faceCount == 1 {
      isConfused := detector.Update(obs.eyeStrain, obs.headTilt, gazeDirection == Center, now);
    }
    session.UpdateConfusion(isConfused);

    var snapshot := session.Snapshot(now);
    var message := Message(snapshot.status, snapshot.timestamp, tracker.CurrentDirection(), faceCount);
    delivered := manager.BroadcastToTeachers(sendOk);
    outcome := Broadcast(message);
  }

  /**
   * The student endpoint: register the socket, create the per-connection
   * objects, and handle the messages in order. The loop ends either when the
   * messages run out (the client disconnected, and the socket is
   * unregistered) or at an unknown gaze direction, whose error is not the
   * disconnect the handler catches, so the socket stays registered.
   * `sendOk(k, j)` is the outcome of frame k's send to the j-th teacher.
   */
  method StudentSocket(manager: ConnectionManager, ws: Socket, cfg: Config, openedAt: real,
                       payloads: seq<Payload>, times: seq<real>, sendOk: (nat, nat) -> bool)
    returns (outcomes: seq<Outcome>)
    requires |times| == |payloads|
    modifies manager
    ensures var run := RunFrames(RunState(StartPipeline(cfg, openedAt), old(manager.teachers), [], false), payloads, times, sendOk, |payloads|);
      && outcomes == run.outcomes
      && (run.crashed ==> manager.students == old(manager.students) + [ws] && manager.teachers == run.teachers)
      && (!run.crashed ==> manager.students == RemoveFirst(old(manager.students) + [ws], ws)
                           && manager.teachers == RemoveFirst(run.teachers, ws))
  {
    manager.ConnectStudent(ws);
    var session := new SessionState(cfg.gazeAwayThreshold, openedAt);
    var tracker := new GazeTracker(cfg.gazeAwayThreshold, openedAt);
    var detector := new ConfusionDetector(cfg.confusionMinDuration, cfg.headTiltThreshold);
    ghost var start := RunState(StartPipeline(cfg, openedAt), old(manager.teachers), [], false);

    outcomes := [];
    var crashed := false;
    var i := 0;
    while i < |payloads| && !crashed
      invariant 0 <= i <= |payloads|
      invariant detector.Valid()
      invariant manager.students == old(manager.students) + [ws]
      invariant RunFrames(start, payloads, times, sendOk, i)
                == RunState(Pipeline(session.Model(), tracker.Model(), detector.Model()), manager.teachers, outcomes, crashed)
    {
      var outcome, _ := ProcessFrame(manager, session, tracker, detector, payloads[i], times[i],
                                     SendResults(i, |manager.teachers|, sendOk));
      outcomes := outcomes + [outcome];
      crashed := outcome.Crashed?;
      i := i + 1;
    }
    if crashed {
      CrashIsFinal(start, payloads, times, sendOk, i, |payloads|);
    } else {
      manager.Disconnect(ws);
    }
  }
}
