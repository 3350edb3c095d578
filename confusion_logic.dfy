/**
 * The confusion detector: a streak debouncer. A frame is confusing when the
 * gaze is centred, the eyes are strained and the head is tilted past the
 * threshold; confusion is confirmed only once a streak of confusing frames
 * has lasted the minimum duration, and any other frame ends the streak.
 *
 * The two configuration constants are constructor parameters; wall-clock
 * time is the explicit parameter `now`.
 */
module ConfusionLogic {
  import opened Wrappers

  /** The detector's state as a value: its configuration, the streak start and the confirmed flag. */
  datatype Detector = Detector(minDuration: real, headTiltThreshold: real, startTime: Option<real>, confused: bool)

  function InitialDetector(minDuration: real, headTiltThreshold: real): Detector
  {
    Detector(minDuration, headTiltThreshold, None, false)
  }

  /** The three per-frame signals the detector consumes. */
  datatype Signals = Signals(eyeStrain: bool, headTilt: real, gazeCentered: bool)

  /** A frame is confusing iff centred, strained, and tilted strictly past the threshold. */
  predicate ConfusingFrame(headTiltThreshold: real, s: Signals)
  {
    s.gazeCentered && s.eyeStrain && s.headTilt > headTiltThreshold
  }

  /** The state `update` leaves behind; `update` returns its `confused` field. */
  function Detect(d: Detector, s: Signals, now: real): Detector
  {
    if ConfusingFrame(d.headTiltThreshold, s) then
      if d.startTime.None? then d.(startTime := Some(now))
      else if now - d.startTime.value >= d.minDuration then d.(confused := true)
      else d
    else d.(startTime := None, confused := false)
  }

  /** One frame's signals and the time they were observed. */
  datatype Sample = Sample(signals: Signals, at: real)

  /** The detector after the samples `ss`, in order. */
  function DetectAll(d: Detector, ss: seq<Sample>): Detector
    decreases |ss|
  {
    if ss == [] then d
    else
      var last := ss[|ss| - 1];
      Detect(DetectAll(d, ss[..|ss| - 1]), last.signals, last.at)
  }

  /** The number of consecutive confusing frames at the end of `ss`. */
  function Streak(headTiltThreshold: real, ss: seq<Sample>): (k: nat)
    ensures k <= |ss|
    decreases |ss|
  {
    if ss == [] || !ConfusingFrame(headTiltThreshold, ss[|ss| - 1].signals) then 0
    else Streak(headTiltThreshold, ss[..|ss| - 1]) + 1
  }

  ghost predicate Chronological(ss: seq<Sample>)
  {
    forall i, j :: 0 <= i < j < |ss| ==> ss[i].at <= ss[j].at
  }

  /**
   * The meaning of the debouncer under a monotone clock. With `k` the length
   * of the trailing streak of confusing frames: no streak means no start time
   * and no confirmation; otherwise the start time is that of the streak's
   * first frame, and confusion is confirmed iff the streak has at least two
   * frames and its last frame came at least the minimum duration after its
   * first. In particular a streak's first frame never confirms, even when the
   * minimum duration is zero, and one non-confusing frame restarts the window.
   */
  lemma {:induction false} DebounceMeaning(minDuration: real, headTiltThreshold: real, ss: seq<Sample>)
    requires Chronological(ss)
    ensures var d := DetectAll(InitialDetector(minDuration, headTiltThreshold), ss);
            var k := Streak(headTiltThreshold, ss);
            && d.minDuration == minDuration && d.headTiltThreshold == headTiltThreshold
            && (k == 0 ==> d.startTime == None && !d.confused)
            && (k > 0 ==> d.startTime == Some(ss[|ss| - k].at)
                          && (d.confused <==> k >= 2 && ss[|ss| - 1].at - ss[|ss| - k].at >= minDuration))
  {
    if ss != [] {
      var pre := ss[..|ss| - 1];
      assert Chronological(pre);
      DebounceMeaning(minDuration, headTiltThreshold, pre);
      var k := Streak(headTiltThreshold, pre);
      if k > 0 {
        assert pre[|pre| - k] == ss[|ss| - 1 - k];
        assert pre[|pre| - 1] == ss[|ss| - 2];
      }
    }
  }

  /** The confusion detector object: `update` and `reset` assign its two fields in place. */
  class ConfusionDetector {
    const minDuration: real
    const headTiltThreshold: real
    var startTime: Option<real>
    var confused: bool

    /** Confusion is only ever confirmed inside an open streak. */
    ghost predicate Valid()
      reads this
    {
      startTime.None? ==> !confused
    }

    function Model(): Detector
      reads this
    {
      Detector(minDuration, headTiltThreshold, startTime, confused)
    }

    constructor (minDuration: real, headTiltThreshold: real)
      ensures Valid()
      ensures Model() == InitialDetector(minDuration, headTiltThreshold)
    {
      this.minDuration := minDuration;
      this.headTiltThreshold := headTiltThreshold;
      startTime := None;
      confused := false;
    }

    method Update(eyeStrain: bool, headTilt: real, gazeCentered: bool, now: real) returns (confirmed: bool)
      requires Valid()
      modifies this
      ensures Valid()
      ensures confirmed == confused
      ensures !ConfusingFrame(headTiltThreshold, Signals(eyeStrain, headTilt, gazeCentered))
              ==> startTime == None && !confused
      ensures ConfusingFrame(headTiltThreshold, Signals(eyeStrain, headTilt, gazeCentered)) && old(startTime).None?
              ==> startTime == Some(now) && !confused
      ensures ConfusingFrame(headTiltThreshold, Signals(eyeStrain, headTilt, gazeCentered)) && old(startTime).Some?
              ==> startTime == old(startTime)
                  && confused == (old(confused) || now - old(startTime).value >= minDuration)
      ensures Model() == Detect(old(Model()), Signals(eyeStrain, headTilt, gazeCentered), now)
    {
      var frameConfused := gazeCentered && eyeStrain && headTilt > headTiltThreshold;
      if frameConfused {
        if startTime.None? {
          startTime := Some(now);
        } else if now - startTime.value >= minDuration {
          confused := true;
        }
      } else {
        startTime := None;
        confused := false;
      }
      return confused;
    }

    method Reset()
      modifies this
      ensures Valid()
      ensures startTime == None && !confused
      ensures Model() == InitialDetector(minDuration, headTiltThreshold)
    {
      startTime := None;
      confused := false;
    }
  }
}
