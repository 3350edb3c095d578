# smart-session proctoring core in Dafny

This project models the temporal decision logic of the smart-session backend.
A student's browser streams video frames, each tagged with a gaze direction,
over a websocket. For each frame the server does four things:

- it updates a per-student **session state** from the number of faces seen,
  then from the gaze, then from a confusion signal;
- a **gaze tracker** keeps a reset-on-centre timer;
- a **confusion detector** debounces streaks of "confusing" frames (centred
  gaze, eye strain, head tilt past a threshold);
- the **connection manager** broadcasts a status snapshot to every connected
  teacher and drops the teachers whose send fails.

The session status is one of `focused`, `confused` or `proctor_alert`. An
alert is sticky: no update leaves it, only `reset` does.

Files:

| file | module | models |
|---|---|---|
| `wrappers.dfy` | `Wrappers` | `Option`, standing for Python's `None` |
| `session_state.dfy` | `SessionStatus` | `StudentStatus`, `SessionState` |
| `gaze_tracker.dfy` | `GazeTracking` | `GazeDirection`, `GazeTracker` |
| `confusion_logic.dfy` | `ConfusionLogic` | `ConfusionDetector` |
| `connection_manager.dfy` | `ConnectionRegistry` | `ConnectionManager` |
| `student_socket.dfy` | `StudentSocket` | the frame loop of `student_socket` |

Every class has the source's own fields and methods that assign them in
place. `SessionState`, `GazeTracker` and `ConfusionDetector` also have a
`Model()` function that returns their state as a value; each of their
methods states the new fields and ties `Model()` to a pure step function:
`GazeStep`, `FaceCountStep`, `ConfusionStep`, `Track` or `Detect`. The
methods of `ConnectionManager` state its two lists directly, in terms of
`RemoveFirst`, `Pruned` and `Delivered`. The frame loop is tied to
`HandleFrame`. The lemmas about many updates are stated over the step
functions and over folds of them (`ApplyAll`, `CountAll`, `TrackAll`,
`DetectAll`, `RunFrames`).

Modelling choices:

- `time.time()` becomes an explicit parameter `now: real`. Multi-step lemmas
  assume a clock that never runs backwards only where they need it.
- The constants from `app.config`, which is not part of this model, become
  constructor parameters. They are collected in `Config` for the loop.
- A websocket is a `Socket` handle, a natural number.
- Whether each send to a teacher succeeds is an input. `BroadcastToTeachers`
  takes one boolean per teacher in the copy of the list. The loop takes a
  function from (frame index, teacher position) to a boolean.
- A received message is a `Payload` with two optional fields:
  - the observation the vision collaborators report for the frame (the face
    count, and the eye-strain and head-tilt features of the single face);
  - the raw gaze-direction string.
- Python's `GazeDirection(s)` is `ParseDirection`, where `None` stands for
  the `ValueError`. Python's `list.remove`, when the element is present, is `RemoveFirst`;
  the registry only removes elements it has checked, or proved, are present.

## Model

| member | source | states |
|---|---|---|
| SessionStatus.StatusValueIdentifies | backend/app/state/session_state.py:12-15 | the three status strings are distinct, so a status string names exactly one status |
| SessionStatus.SessionState.constructor | backend/app/state/session_state.py:26-33 | a new session is focused, its gaze timer starts at `now`, there is no face-missing mark and the multi-face flag is false |
| SessionStatus.SessionState.UpdateGaze | backend/app/state/session_state.py:39-51 | a centred gaze sets the timer to `now` and leaves the status alone; an off-centre gaze keeps the timer and gives an alert iff one was already raised or `now - last centred >= threshold`; the face marks are unchanged; the new state is `GazeStep` of the old |
| SessionStatus.SessionState.UpdateFaceCount | backend/app/state/session_state.py:57-75 | one face clears both marks and keeps the status; a first missing face only sets the mark to `now`; a second missing face raises an alert; any other count sets the multi-face flag and raises an alert; the gaze timer is untouched |
| SessionStatus.SessionState.UpdateConfusion | backend/app/state/session_state.py:81-91 | a no-op under an alert; otherwise the status becomes confused iff `isConfused`, else focused; the timer and marks are unchanged |
| SessionStatus.SessionState.Snapshot | backend/app/state/session_state.py:97-104 | reads the state without changing it; the status string equals `st.Value()` exactly when `st` is the current status; the timestamp is the clock reading |
| SessionStatus.SessionState.Reset | backend/app/state/session_state.py:106-113 | back to the initial state: focused, timer at `now`, both marks cleared |
| SessionStatus.AlertIsSticky | backend/app/state/session_state.py:39-91 | from a proctor alert, every sequence of face-count, gaze and confusion updates ends in a proctor alert |
| SessionStatus.AlertHasCause | backend/app/state/session_state.py:50-51 | if a non-alerted session ends a history in alert, then some update in it was a face count other than one or an off-centre gaze; confusion updates never raise an alert |
| SessionStatus.ConfusionDecidesWithoutAlert | backend/app/state/session_state.py:81-91 | if a history ending in a confusion update leaves no alert, the status is confused iff that last update said confused |
| SessionStatus.FaceAbsenceMeaning | backend/app/state/session_state.py:57-75 | over any sequence of face counts from a fresh session: the missing mark is set iff a no-face reading followed the last single-face one; the multi-face flag is set iff a crowded reading followed it; the session is in alert iff two no-face readings had no single-face reading between them or a crowded reading was ever seen ("absent twice", not a duration); otherwise it is focused |
| GazeTracking.ParseDirection | backend/app/vision/gaze_tracker.py:13-18 | a string parses iff it is one of the five direction names, and the parsed direction's value is that string |
| GazeTracking.ParseValue | backend/app/vision/gaze_tracker.py:13-18 | every direction's value parses back to that direction |
| GazeTracking.GazeTracker.constructor | backend/app/vision/gaze_tracker.py:30-33 | a new tracker faces the centre and its timer starts at `now` |
| GazeTracking.GazeTracker.Update | backend/app/vision/gaze_tracker.py:35-54 | the direction is always set to the argument; a centred reading returns false and sets the timer to `now`; an off-centre one keeps the timer and returns `now - last centred >= threshold` |
| GazeTracking.GazeTracker.CurrentDirection | backend/app/vision/gaze_tracker.py:56-61 | the result is one of the five direction names and parses back to the current direction |
| GazeTracking.GazeTracker.Reset | backend/app/vision/gaze_tracker.py:63-68 | direction back to centre and the timer at `now` |
| GazeTracking.LastCenteredIsLatest | backend/app/vision/gaze_tracker.py:46-51 | with a monotone clock, the timer holds the latest centred reading's time, or the start time if there was none |
| GazeTracking.AlertMeansAwayThroughout | backend/app/vision/gaze_tracker.py:46-54 | with a monotone clock, `update` returns true iff the reading is off-centre, the tracker started at least `threshold` ago, and every centred reading came at least `threshold` ago |
| GazeTracking.OffCentreKeepsTimer | backend/app/vision/gaze_tracker.py:49-54 | off-centre readings never move the timer |
| GazeTracking.AlertPersistsWhileAway | backend/app/vision/gaze_tracker.py:49-54 | after an off-centre update returns true, every later off-centre update before the next centred one returns true too, while the clock does not run backwards |
| ConfusionLogic.ConfusionDetector.constructor | backend/app/vision/confusion_logic.py:8-10 | a new detector has no streak and has not confirmed confusion |
| ConfusionLogic.ConfusionDetector.Update | backend/app/vision/confusion_logic.py:12-29 | a non-confusing frame clears the streak and the confirmation; the first confusing frame opens the streak at `now` without confirming; a later one confirms once `now - start >= minimum duration` and a confirmation stays set while frames stay confusing; the result is the stored flag; there is never a confirmation without a streak |
| ConfusionLogic.ConfusionDetector.Reset | backend/app/vision/confusion_logic.py:32-34 | clears the streak and the confirmation |
| ConfusionLogic.DebounceMeaning | backend/app/vision/confusion_logic.py:15-29 | with a monotone clock and `k` the number of trailing confusing frames: `k = 0` means no streak and no confirmation; otherwise the streak started at the first of those `k` frames, and confusion is confirmed iff `k >= 2` and the last frame came at least the minimum duration after the first (the strict `>` on the head tilt is in `ConfusingFrame`) |
| ConnectionRegistry.RemoveFirst | backend/app/api/websocket.py:26-30 | removing an absent socket changes nothing; removing a present one takes away exactly one occurrence |
| ConnectionRegistry.RemoveFirstSplits | backend/app/api/websocket.py:28-30 | the occurrence removed is the first one: the list splits around it |
| ConnectionRegistry.ConnectThenDisconnect | backend/app/api/websocket.py:18-30 | registering a new socket and then disconnecting it restores the list |
| ConnectionRegistry.ConnectionManager.constructor | backend/app/api/websocket.py:14-16 | both lists start empty |
| ConnectionRegistry.ConnectionManager.ConnectStudent | backend/app/api/websocket.py:18-20 | appends to the student list only |
| ConnectionRegistry.ConnectionManager.ConnectTeacher | backend/app/api/websocket.py:22-24 | appends to the teacher list only |
| ConnectionRegistry.ConnectionManager.Disconnect | backend/app/api/websocket.py:26-30 | removes the first occurrence from whichever lists hold the socket, exactly one per list; a no-op when neither does |
| ConnectionRegistry.ConnectionManager.BroadcastToTeachers | backend/app/api/websocket.py:32-37 | tries the teachers registered at entry, in order, over a copy; returns those delivered to; the teacher list becomes `Pruned` (one removal per failed send) and holds exactly the delivered teachers counted with multiplicity; the student list is unchanged |
| ConnectionRegistry.StillRegistered | backend/app/api/websocket.py:33-37 | during the broadcast a failed teacher is still in the list when it is removed, so `remove` never raises |
| ConnectionRegistry.PrunedKeepsDelivered | backend/app/api/websocket.py:32-37 | the teachers left after a broadcast are, as a multiset, exactly those whose send succeeded |
| ConnectionRegistry.PrunedWhenDistinct | backend/app/api/websocket.py:32-37 | with no teacher registered twice, the list left is exactly the delivered teachers in registration order, and no failed teacher remains |
| ConnectionRegistry.SecondOfThreeFails | backend/app/api/websocket.py:32-37 | with three teachers whose second send fails, the first and third receive the message and remain, and the second is gone |
| StudentSocket.IncompletePayloadSkipped | backend/app/api/websocket.py:74-75 | a message lacking the frame or the gaze direction changes no state and broadcasts nothing |
| StudentSocket.UnknownDirectionCrashes | backend/app/api/websocket.py:84-88 | a complete message ends the loop iff its gaze string is not a direction name; by then only the face-count update has been applied; otherwise it is broadcast |
| StudentSocket.MessageReportsState | backend/app/api/websocket.py:111-118 | the broadcast message names the session's new status, echoes the gaze string received, and carries the face count and the clock reading |
| StudentSocket.DetectorSeesSingleFacesOnly | backend/app/api/websocket.py:97-109 | with no face or several, the confusion detector is untouched, so its streak survives; with one face it is fed the frame's features and whether the gaze is centred |
| StudentSocket.FaceLossDowngradesConfusion | backend/app/api/websocket.py:81-111 | a confused session's first no-face frame (gaze centred) is reported focused, because `update_confusion(False)` is always called |
| StudentSocket.AlertSurvivesFrame | backend/app/api/websocket.py:81-111 | no message moves a session out of a proctor alert |
| StudentSocket.TimersAgree | backend/app/api/websocket.py:87-93 | with one clock reading per frame, the session's gaze timer and the tracker's, fed the same readings, stay equal; whenever the tracker's `update` would report "away too long" (the loop discards that result), the session is in alert after the frame |
| StudentSocket.CrashIsFinal | backend/app/api/websocket.py:68-121 | once the loop has ended on an unknown gaze direction, later messages change nothing |
| StudentSocket.AlertBroadcastIsFinal | backend/app/api/websocket.py:68-118 | once a connection has broadcast `proctor_alert`, every later broadcast from it is `proctor_alert` too |
| StudentSocket.ProcessFrame | backend/app/api/websocket.py:74-118 | one pass of the loop body on the connection's objects: outcome and new state are those of `HandleFrame`; the teachers are pruned as by `BroadcastToTeachers` only when a message is broadcast; the student list is untouched |
| StudentSocket.StudentSocket | backend/app/api/websocket.py:56-121 | registers the student and runs the messages in order, matching `RunFrames`; when the messages run out (the client disconnected) the socket is unregistered; after an unknown gaze direction it stays registered |

## Left out

- Frame decoding (`decode_frame`, base64, numpy, OpenCV) and `json.loads` are not part of this model. A payload is a record whose fields may be missing. Malformed JSON and undecodable frames are not modelled.
- The face detector (OpenCV Haar cascades) and the eye-strain and head-tilt extraction (floating-point geometry) are foreign or numeric code. Their results are fields of `Observation`.
- The clock is an exact `real` parameter, not a floating-point `time.time()`. Within one frame the model uses a single reading `now`. The source reads the clock separately in each update, in the tracker, in the detector and in `snapshot`.
- StudentSocket.ProcessFrame: the send outcomes are inputs, and the message content does not reach the registry model, since a send's effect on the teacher's client is outside the server.
- async/await, `accept`, real socket I/O, and the interleaving of a teacher's `disconnect` with an in-flight broadcast are concurrency. If the interleaving removed a teacher first, `remove` could raise. The model runs one coroutine at a time.
- StudentSocket.StudentSocket: the end of the input sequence stands for `WebSocketDisconnect`. An unknown gaze direction is the only other error modelled.
- `teacher_socket` only waits for its client to disconnect. Its effects are `ConnectTeacher` and `Disconnect`, which are modelled.
- `main.py` (routing, CORS) and `health.py` (a fixed payload) are wiring only.
- `GazeTracker.update` returns a value that `student_socket` discards. `StudentSocket.TimersAgree` states how that value relates to the session's own alert, under one clock reading per frame.
- StudentSocket.TimersAgree: holds only when each frame (and the construction of the session and the tracker) has one clock reading. The source reads the clock separately for the session and for the tracker, both when they are created and on every frame (the tracker before the session), so its two timers drift apart by the gap between those reads, and near the threshold the tracker can report "away too long" on a frame where the session raises no alert.
