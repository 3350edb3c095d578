/**
 * The gaze tracker: a single timer that restarts whenever the student looks
 * at the centre of the screen, and that reports whether the gaze has been
 * away for at least the configured threshold.
 *
 * Wall-clock time is the explicit parameter `now` (seconds, exact reals).
 */
module GazeTracking {
  import opened Wrappers

  /** The five directions the student's client may report. */
  datatype GazeDirection = Center | Left | Right | Up | Down
  {
    /** The enumeration's string value. */
    function Value(): string
    {
      match this
      case Center => "center"
      case Left => "left"
      case Right => "right"
      case Up => "up"
      case Down => "down"
    }
  }

  const DirectionNames: set<string> := {"center", "left", "right", "up", "down"}

  /**
   * `GazeDirection(s)`: the member whose value is `s`; `None` stands for the
   * ValueError raised for any other string.
   */
  function ParseDirection(s: string): (r: Option<GazeDirection>)
    ensures r.Some? <==> s in DirectionNames
    ensures r.Some? ==> r.value.Value() == s
  {
    if s == "center" then Some(Center)
    else if s == "left" then Some(Left)
    else if s == "right" then Some(Right)
    else if s == "up" then Some(Up)
    else if s == "down" then Some(Down)
    else None
  }

  /** Every direction's string value parses back to that direction. */
  lemma ParseValue(d: GazeDirection)
    ensures ParseDirection(d.Value()) == Some(d)
  {
    match d
    case Center =>
    case Left =>
    case Right =>
    case Up =>
    case Down =>
  }

  /** The tracker's state as a value. */
  datatype Tracker = Tracker(awayThreshold: real, lastCentered: real, direction: GazeDirection)

  function InitialTracker(awayThreshold: real, now: real): Tracker
  {
    Tracker(awayThreshold, now, Center)
  }

  /** What `update` returns: off-centre, and away for at least the threshold. */
  predicate AwayTooLong(t: Tracker, d: GazeDirection, now: real)
  {
    d != Center && now - t.lastCentered >= t.awayThreshold
  }

  /** The state `update` leaves behind. */
  function Track(t: Tracker, d: GazeDirection, now: real): Tracker
  {
    if d == Center then t.(lastCentered := now, direction := d)
    else t.(direction := d)
  }

  /** One reported direction and the time it was reported. */
  datatype Reading = Reading(direction: GazeDirection, at: real)

  /** The tracker after the readings `rs`, in order. */
  function TrackAll(t: Tracker, rs: seq<Reading>): Tracker
    decreases |rs|
  {
    if rs == [] then t
    else
      var last := rs[|rs| - 1];
      Track(TrackAll(t, rs[..|rs| - 1]), last.direction, last.at)
  }

  /** The clock never runs backwards: `start` precedes every reading, and the readings are in time order. */
  ghost predicate Chronological(start: real, rs: seq<Reading>)
  {
    && (forall i :: 0 <= i < |rs| ==> start <= rs[i].at)
    && (forall i, j :: 0 <= i < j < |rs| ==> rs[i].at <= rs[j].at)
  }

  /**
   * Reference meaning of "away for at least `threshold`" at time `now`: the
   * tracker was started at least `threshold` ago, and every centred reading
   * was taken at least `threshold` ago.
   */
  ghost predicate AwayThroughout(threshold: real, start: real, rs: seq<Reading>, now: real)
  {
    && now - start >= threshold
    && forall i :: 0 <= i < |rs| && rs[i].direction == Center ==> now - rs[i].at >= threshold
  }

  /** Under a monotone clock the timer holds the latest centred reading (or the start time). */
  lemma {:induction false} LastCenteredIsLatest(threshold: real, start: real, rs: seq<Reading>)
    requires Chronological(start, rs)
    ensures var t := TrackAll(InitialTracker(threshold, start), rs);
      && t.awayThreshold == threshold
      && start <= t.lastCentered
      && (forall i :: 0 <= i < |rs| && rs[i].direction == Center ==> rs[i].at <= t.lastCentered)
      && (t.lastCentered == start || exists i :: 0 <= i < |rs| && rs[i].direction == Center && t.lastCentered == rs[i].at)
      && (|rs| > 0 ==> t.lastCentered <= rs[|rs| - 1].at)
  {
    if rs != [] {
      var pre := rs[..|rs| - 1];
      assert Chronological(start, pre);
      LastCenteredIsLatest(threshold, start, pre);
      var t := TrackAll(InitialTracker(threshold, start), pre);
      var last := rs[|rs| - 1];
      if pre != [] {
        assert pre[|pre| - 1] == rs[|rs| - 2];
      }
      if last.direction != Center {
        var t' := TrackAll(InitialTracker(threshold, start), rs);
        if t.lastCentered != start {
          var i :| 0 <= i < |pre| && pre[i].direction == Center && t.lastCentered == pre[i].at;
          assert rs[i] == pre[i];
        }
        forall i | 0 <= i < |rs| && rs[i].direction == Center
          ensures rs[i].at <= t'.lastCentered
        {
          assert rs[i] == pre[i];
        }
      }
    }
  }

  /**
   * Under a monotone clock, `update` reports an alert exactly when the gaze
   * is off-centre and has been away throughout the last `threshold` seconds.
   */
  lemma AlertMeansAwayThroughout(threshold: real, start: real, rs: seq<Reading>, d: GazeDirection, now: real)
    requires Chronological(start, rs + [Reading(d, now)])
    ensures AwayTooLong(TrackAll(InitialTracker(threshold, start), rs), d, now)
        <==> d != Center && AwayThroughout(threshold, start, rs, now)
  {
    var all := rs + [Reading(d, now)];
    assert Chronological(start, rs) by {
      forall i | 0 <= i < |rs| ensures start <= rs[i].at { assert rs[i] == all[i]; }
      forall i, j | 0 <= i < j < |rs| ensures rs[i].at <= rs[j].at { assert rs[i] == all[i] && rs[j] == all[j]; }
    }
    LastCenteredIsLatest(threshold, start, rs);
    if rs != [] {
      assert rs[|rs| - 1] == all[|rs| - 1];
    }
  }

  /** Off-centre readings never move the timer. */
  lemma {:induction false} OffCentreKeepsTimer(t: Tracker, rs: seq<Reading>)
    requires forall i :: 0 <= i < |rs| ==> rs[i].direction != Center
    ensures TrackAll(t, rs).lastCentered == t.lastCentered
    ensures TrackAll(t, rs).awayThreshold == t.awayThreshold
  {
    if rs != [] {
      OffCentreKeepsTimer(t, rs[..|rs| - 1]);
    }
  }

  /**
   * Once an off-centre update reports an alert, every later off-centre
   * update before the next centred one reports an alert too, as long as the
   * clock does not run backwards.
   */
  lemma AlertPersistsWhileAway(t: Tracker, d: GazeDirection, now: real, rs: seq<Reading>)
    requires AwayTooLong(t, d, now)
    requires forall i :: 0 <= i < |rs| ==> rs[i].direction != Center && now <= rs[i].at
    ensures forall k :: 0 <= k < |rs| ==> AwayTooLong(TrackAll(Track(t, d, now), rs[..k]), rs[k].direction, rs[k].at)
  {
    forall k | 0 <= k < |rs|
      ensures AwayTooLong(TrackAll(Track(t, d, now), rs[..k]), rs[k].direction, rs[k].at)
    {
      OffCentreKeepsTimer(Track(t, d, now), rs[..k]);
    }
  }

  /** The gaze tracker object: `update` and `reset` assign its two fields in place. */
  class GazeTracker {
    const awayThreshold: real
    var lastCenteredTime: real
    var direction: GazeDirection

    function Model(): Tracker
      reads this
    {
      Tracker(awayThreshold, lastCenteredTime, direction)
    }

    constructor (awayThreshold: real, now: real)
      ensures Model() == InitialTracker(awayThreshold, now)
      ensures this.awayThreshold == awayThreshold && lastCenteredTime == now && direction == Center
    {
      this.awayThreshold := awayThreshold;
      lastCenteredTime := now;
      direction := Center;
    }

    /** Records `d` and reports whether the gaze has been away too long. */
    method Update(d: GazeDirection, now: real) returns (away: bool)
      modifies this
      ensures direction == d
      ensures d == Center ==> lastCenteredTime == now && !away
      ensures d != Center ==> lastCenteredTime == old(lastCenteredTime)
                              && away == (now - old(lastCenteredTime) >= awayThreshold)
      ensures Model() == Track(old(Model()), d, now) && away == AwayTooLong(old(Model()), d, now)
    {
      direction := d;
      if d == Center {
        lastCenteredTime := now;
        return false;
      }
      var awayDuration := now - lastCenteredTime;
      away := awayDuration >= awayThreshold;
    }

    /** The `current_direction` property: the current direction as its string value. */
    function CurrentDirection(): (s: string)
      reads this
      ensures s in DirectionNames
      ensures ParseDirection(s) == Some(direction)
    {
      ParseValue(direction);
      direction.Value()
    }

    method Reset(now: real)
      modifies this
      ensures lastCenteredTime == now && direction == Center
      ensures Model() == InitialTracker(awayThreshold, now)
    {
      lastCenteredTime := now;
      direction := Center;
    }
  }
}
