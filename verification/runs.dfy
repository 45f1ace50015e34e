/**
  Runs of consecutive playing frames.

  While the host plays and a target animator is set, every frame of the
  editor window is a `Step` with the animation's current normalized time. A
  run is such a sequence of frames with no GUI redraw in between that changes
  the settings or the target animator. While recording, a redraw leaves the
  settings alone (`GuiRecordingKeepsSettings`), but picking another animator
  still replaces the target and its names; a run assumes that does not happen.
  The lemmas below say what a whole run captures when the animation's time
  never goes backwards from the run's first frame on.
 */
module Runs {

  import opened Scheduler

  /** Times never decrease along the run. */
  predicate Nondecreasing(times: seq<real>) {
    forall i, j :: 0 <= i < j < |times| ==> times[i] <= times[j]
  }

  /** The fields after a run of playing frames at the given times, and all captures taken, in order. */
  function Run(r: Recorder, times: seq<real>): StepResult
    decreases |times|
  {
    if times == [] then StepResult(r, [])
    else
      var prev := Run(r, times[..|times| - 1]);
      var step := Step(prev.next, true, true, times[|times| - 1]);
      StepResult(step.next, prev.shots + step.shots)
  }

  /**
    A run keeps the selected state, the sample count and the end time, ends
    with no restart pending and remembers the time of its last frame.
   */
  lemma {:induction false} RunKeepsSettings(r: Recorder, times: seq<real>)
    requires times != []
    ensures Run(r, times).next == r.(oldTime := times[|times| - 1], updateNowFlag := false,
                                      isRecording := Run(r, times).next.isRecording)
  {
    if |times| > 1 {
      RunKeepsSettings(r, times[..|times| - 1]);
    }
  }

  /**
    A run with non-decreasing times stops recording exactly when one of its
    frames steps over `StopTime`: the first frame, from the remembered time to
    `times[0]`, or a later one, somewhere in (times[0], last time].
   */
  lemma {:induction false} RunStopsRecording(r: Recorder, times: seq<real>)
    requires times != [] && Nondecreasing(times)
    ensures Run(r, times).next.isRecording
       <==> (&& r.isRecording
             && !(r.oldTime < StopTime <= times[0])
             && !(times[0] < StopTime <= times[|times| - 1]))
  {
    if |times| > 1 {
      var init := times[..|times| - 1];
      RunStopsRecording(r, init);
      RunKeepsSettings(r, init);
      assert init[0] == times[0] && init[|init| - 1] == times[|times| - 2];
    }
  }

  /**
    Which samples a run captures: sample 0 when a restart was pending, and
    every sample whose checkpoint some frame steps over, which for
    non-decreasing times means (oldTime, times[0]] for the first frame and
    (times[0], last time] for the rest. All captures are of the selected state.
   */
  lemma {:induction false} RunShotsMembers(r: Recorder, times: seq<real>)
    requires times != [] && Nondecreasing(times)
    ensures forall j :: 0 <= j < |Run(r, times).shots| ==>
      Run(r, times).shots[j].stateName == SamplingOf(r).stateName
    ensures forall x: nat :: (Shot(SamplingOf(r).stateName, x) in Run(r, times).shots
      <==> || (x == 0 && r.updateNowFlag)
           || Fires(SamplingOf(r), r.oldTime, times[0], x)
           || Fires(SamplingOf(r), times[0], times[|times| - 1], x))
  {
    var p := SamplingOf(r);
    if |times| == 1 {
      assert Run(r, times).shots == FrameShots(r, times[0]);
      FrameShotsMembers(r, times[0]);
    } else {
      var init := times[..|times| - 1];
      var last := times[|times| - 1];
      var prev := Run(r, init);
      RunShotsMembers(r, init);
      RunKeepsSettings(r, init);
      assert init[0] == times[0] && init[|init| - 1] == times[|times| - 2];
      assert SamplingOf(prev.next) == p && !prev.next.updateNowFlag;
      FrameShotsMembers(prev.next, last);
      var latest := FrameShots(prev.next, last);
      assert Run(r, times).shots == prev.shots + latest;
      forall x: nat
        ensures Shot(p.stateName, x) in Run(r, times).shots
            <==> Shot(p.stateName, x) in prev.shots || Shot(p.stateName, x) in latest
      {
      }
    }
  }

  /**
    If the first frame does not go back in time either, the run captures
    exactly sample 0 when a restart was pending and the samples whose
    checkpoints lie in (oldTime, last time].
   */
  lemma RunFiresExactlyWhenCrossed(r: Recorder, times: seq<real>, x: nat)
    requires times != [] && Nondecreasing(times) && r.oldTime <= times[0]
    ensures Shot(SamplingOf(r).stateName, x) in Run(r, times).shots
       <==> (x == 0 && r.updateNowFlag) || Fires(SamplingOf(r), r.oldTime, times[|times| - 1], x)
  {
    RunShotsMembers(r, times);
  }

  /**
    Every capture of a run was taken at or before the run's last time: it is
    the restart sample 0 or its checkpoint is at most that time.
   */
  lemma {:induction false} RunShotsBeforeEnd(r: Recorder, times: seq<real>)
    requires times != [] && Nondecreasing(times)
    ensures forall j :: 0 <= j < |Run(r, times).shots| ==>
      || Run(r, times).shots[j].sample == 0
      || (1 <= Run(r, times).shots[j].sample < r.snapNum
          && Checkpoint(r.endNormalizeTime, r.snapNum, Run(r, times).shots[j].sample) <= times[|times| - 1])
  {
    var p := SamplingOf(r);
    var s := Run(r, times).shots;
    RunShotsMembers(r, times);
    forall j | 0 <= j < |s|
      ensures s[j].sample == 0
           || (1 <= s[j].sample < r.snapNum && Checkpoint(r.endNormalizeTime, r.snapNum, s[j].sample) <= times[|times| - 1])
    {
      assert s[j] == Shot(p.stateName, s[j].sample);
    }
  }

  /**
    With non-decreasing times no sample is captured twice in a run: each
    checkpoint fires at most once, however many frames the run has.
   */
  lemma {:induction false} RunShotsDistinct(r: Recorder, times: seq<real>)
    requires Nondecreasing(times)
    ensures forall a, b :: 0 <= a < b < |Run(r, times).shots| ==>
      Run(r, times).shots[a].sample != Run(r, times).shots[b].sample
  {
    if |times| == 1 {
      assert Run(r, times).shots == FrameShots(r, times[0]);
      FrameShotsOrder(r, times[0]);
    } else if |times| > 1 {
      var init := times[..|times| - 1];
      var last := times[|times| - 1];
      var prev := Run(r, init);
      RunShotsDistinct(r, init);
      RunKeepsSettings(r, init);
      RunShotsBeforeEnd(r, init);
      var mid := init[|init| - 1];
      assert prev.next.oldTime == mid && !prev.next.updateNowFlag;
      FrameShotsMembers(prev.next, last);
      FrameShotsOrder(prev.next, last);
      var latest := FrameShots(prev.next, last);
      var s := Run(r, times).shots;
      assert s == prev.shots + latest;
      forall a, b | 0 <= a < |prev.shots| <= b < |s|
        ensures s[a].sample != s[b].sample
      {
        var y := latest[b - |prev.shots|];
        assert y == s[b] && y in latest;
        assert y == Shot(SamplingOf(prev.next).stateName, y.sample);
        assert Fires(SamplingOf(prev.next), mid, last, y.sample);
        assert s[a] == prev.shots[a];
      }
    }
  }

  /**
    When the end time is not negative, as the slider guarantees, a run with
    non-decreasing times takes its captures in strictly increasing sample
    order: the restart sample 0 first, then the checkpoints as the animation
    reaches them.
   */
  lemma {:induction false} RunShotsIncreasing(r: Recorder, times: seq<real>)
    requires Nondecreasing(times) && r.endNormalizeTime >= 0.0
    ensures forall a, b :: 0 <= a < b < |Run(r, times).shots| ==>
      Run(r, times).shots[a].sample < Run(r, times).shots[b].sample
  {
    if |times| == 1 {
      assert Run(r, times).shots == FrameShots(r, times[0]);
      FrameShotsOrder(r, times[0]);
    } else if |times| > 1 {
      var init := times[..|times| - 1];
      var last := times[|times| - 1];
      var prev := Run(r, init);
      RunShotsIncreasing(r, init);
      RunKeepsSettings(r, init);
      RunShotsBeforeEnd(r, init);
      var mid := init[|init| - 1];
      assert prev.next.oldTime == mid && !prev.next.updateNowFlag;
      FrameShotsMembers(prev.next, last);
      FrameShotsOrder(prev.next, last);
      var latest := FrameShots(prev.next, last);
      var s := Run(r, times).shots;
      assert s == prev.shots + latest;
      forall a, b | 0 <= a < |prev.shots| <= b < |s|
        ensures s[a].sample < s[b].sample
      {
        var y := latest[b - |prev.shots|];
        assert y == s[b] && y in latest;
        assert y == Shot(SamplingOf(prev.next).stateName, y.sample);
        assert Fires(SamplingOf(prev.next), mid, last, y.sample);
        assert s[a] == prev.shots[a];
        if s[a].sample != 0 && s[a].sample >= y.sample {
          CheckpointMonotone(r.endNormalizeTime, r.snapNum, y.sample, s[a].sample);
        }
      }
    }
  }

  /** With a non-negative end time, later samples have later (or equal) checkpoints. */
  lemma CheckpointMonotone(endTime: real, snapNum: int, i: int, j: int)
    requires endTime >= 0.0 && snapNum > 0 && i <= j
    ensures Checkpoint(endTime, snapNum, i) <= Checkpoint(endTime, snapNum, j)
  {
  }
}
