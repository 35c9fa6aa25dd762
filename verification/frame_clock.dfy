/** The frame clock behind `animate`: each animation frame receives a
    millisecond timestamp and advances the shader time, in seconds, by the
    time elapsed since the previous frame unless playback is paused. */
module FrameClock {

  /** `lastFrameRef`, `timeRef` and `pausedRef` of the component.
      `lastFrame == 0` means "no frame seen yet" (the source tests it for
      falsiness). */
  datatype Clock = Clock(lastFrame: real, time: real, paused: bool)

  /** The clock before the component first mounts: all refs at their initial values. */
  const Initial: Clock := Clock(0.0, 0.0, false)

  /** The mount effect clears `lastFrameRef` only; accumulated time survives a remount. */
  function Remount(c: Clock): (r: Clock)
    ensures r.lastFrame == 0.0 && r.time == c.time && r.paused == c.paused
  {
    c.(lastFrame := 0.0)
  }

  /** The refs effect copies the record's `paused` into `pausedRef`. */
  function WithPaused(c: Clock, paused: bool): Clock
  {
    c.(paused := paused)
  }

  /** The timestamp the delta is measured from: the stored one, or the frame's
      own timestamp when the stored one is falsy (zero). */
  function Baseline(c: Clock, timestamp: real): real
  {
    if c.lastFrame == 0.0 then timestamp else c.lastFrame
  }

  /** Seconds between the baseline and this frame. */
  function Delta(c: Clock, timestamp: real): (seconds: real)
    ensures c.lastFrame == 0.0 ==> seconds == 0.0
    ensures c.lastFrame != 0.0 ==> seconds * 1000.0 == timestamp - c.lastFrame
  {
    (timestamp - Baseline(c, timestamp)) / 1000.0
  }

  /** One run of `animate(timestamp)`. */
  function Step(c: Clock, timestamp: real): (r: Clock)
    ensures r.lastFrame == timestamp
    ensures r.paused == c.paused
  {
    var delta := Delta(c, timestamp);
    Clock(timestamp, if c.paused then c.time else c.time + delta, c.paused)
  }

  /** The frames `timestamps`, in order, with `pausedRef` held fixed. */
  function RunFrames(c: Clock, timestamps: seq<real>): (r: Clock)
    ensures r.paused == c.paused
    ensures |timestamps| > 0 ==> r.lastFrame == timestamps[|timestamps| - 1]
    ensures |timestamps| == 0 ==> r == c
    decreases |timestamps|
  {
    if |timestamps| == 0 then c
    else RunFrames(Step(c, timestamps[0]), timestamps[1..])
  }

  ghost predicate NonDecreasing(s: seq<real>)
  {
    forall i, j :: 0 <= i <= j < |s| ==> s[i] <= s[j]
  }

  ghost predicate AllPositive(s: seq<real>)
  {
    forall i :: 0 <= i < |s| ==> s[i] > 0.0
  }

  /** The first frame after mount measures its delta from itself: time does
      not move, whatever the timestamp. */
  lemma FirstFrameHasZeroDelta(c: Clock, timestamp: real)
    ensures Delta(Remount(c), timestamp) == 0.0
    ensures Step(Remount(c), timestamp).time == c.time
    ensures Step(Remount(c), timestamp).lastFrame == timestamp
  {
  }

  /** The falsy test does not know about mounting: any frame whose stored
      timestamp is zero, including one right after a frame stamped 0, gets a
      zero delta. */
  lemma ZeroTimestampSwallowsNextDelta(c: Clock, t: real)
    requires !c.paused && c.lastFrame != 0.0 && t != 0.0
    ensures Step(Step(c, 0.0), t).time == Step(c, 0.0).time
    ensures Step(Step(c, 0.0), t).time != Step(c, 0.0).time + (t - 0.0) / 1000.0
  {
  }

  /** While paused a frame leaves the time alone but still records its timestamp. */
  lemma PausedFrameFreezesTime(c: Clock, timestamp: real)
    requires c.paused
    ensures Step(c, timestamp).time == c.time
    ensures Step(c, timestamp).lastFrame == timestamp
  {
  }

  /** While running, a frame adds the elapsed seconds since the stored timestamp. */
  lemma RunningFrameAdvancesByElapsed(c: Clock, timestamp: real)
    requires !c.paused && c.lastFrame != 0.0
    ensures Step(c, timestamp).time == c.time + (timestamp - c.lastFrame) / 1000.0
  {
  }

  /** On resume, the first running frame measures its delta from the last
      paused frame, not from the moment the pause began. */
  lemma ResumeMeasuresFromLastPausedFrame(c: Clock, pausedAt: real, t1: real, t2: real)
    requires c.paused && t1 != 0.0
    ensures Step(WithPaused(Step(Step(c, pausedAt), t1), false), t2).time
            == c.time + (t2 - t1) / 1000.0
  {
  }

  /** Any number of paused frames leave the time where it was. */
  lemma {:induction false} PausedRunFreezesTime(c: Clock, timestamps: seq<real>)
    requires c.paused
    ensures RunFrames(c, timestamps).time == c.time
    decreases |timestamps|
  {
    if |timestamps| > 0 {
      PausedRunFreezesTime(Step(c, timestamps[0]), timestamps[1..]);
    }
  }

  /** With timestamps that never go backwards (and do not precede the stored
      one), time never goes backwards. */
  lemma {:induction false} RunIsMonotone(c: Clock, timestamps: seq<real>)
    requires NonDecreasing(timestamps)
    requires |timestamps| > 0 ==> c.lastFrame <= timestamps[0]
    ensures RunFrames(c, timestamps).time >= c.time
    decreases |timestamps|
  {
    if |timestamps| > 0 {
      var next := Step(c, timestamps[0]);
      assert next.time >= c.time;
      RunIsMonotone(next, timestamps[1..]);
    }
  }

  /** Running frames telescope: after a run of positive timestamps the time
      has advanced by exactly the span from the stored timestamp to the last
      frame, however the frames were spaced. */
  lemma {:induction false} RunningRunTelescopes(c: Clock, timestamps: seq<real>)
    requires !c.paused && c.lastFrame > 0.0
    requires |timestamps| > 0 && AllPositive(timestamps)
    ensures RunFrames(c, timestamps).time
            == c.time + (timestamps[|timestamps| - 1] - c.lastFrame) / 1000.0
    decreases |timestamps|
  {
    var next := Step(c, timestamps[0]);
    assert next.time == c.time + (timestamps[0] - c.lastFrame) / 1000.0;
    if |timestamps| > 1 {
      var rest := timestamps[1..];
      assert AllPositive(rest) by {
        forall i | 0 <= i < |rest| ensures rest[i] > 0.0 {
          assert rest[i] == timestamps[i + 1];
        }
      }
      RunningRunTelescopes(next, rest);
      assert rest[|rest| - 1] == timestamps[|timestamps| - 1];
    }
  }

  /** After a mount, a running clock's time advances by the span from the
      first frame to the last one. */
  lemma MountedRunAdvancesFromFirstFrame(c: Clock, timestamps: seq<real>)
    requires !c.paused
    requires |timestamps| > 0 && AllPositive(timestamps)
    ensures RunFrames(Remount(c), timestamps).time
            == c.time + (timestamps[|timestamps| - 1] - timestamps[0]) / 1000.0
  {
    var first := Step(Remount(c), timestamps[0]);
    assert first.time == c.time;
    var rest := timestamps[1..];
    if |rest| > 0 {
      assert AllPositive(rest) by {
        forall i | 0 <= i < |rest| ensures rest[i] > 0.0 {
          assert rest[i] == timestamps[i + 1];
        }
      }
      RunningRunTelescopes(first, rest);
      assert rest[|rest| - 1] == timestamps[|timestamps| - 1];
    }
  }
}
