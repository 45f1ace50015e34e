/**
  The capture scheduler of the billboard tool, as values.

  The editor window keeps a handful of fields between frames: the normalized
  time seen at the previous frame, the "recording" and "play now" flags, the
  selected animation state, the number of samples and the end of the sampled
  range. Once per frame `Step` advances them and lists the captures the frame
  takes; once per GUI redraw `Gui` applies the window's widgets. Normalized
  times are `real`: the single-precision rounding of the source is not
  modelled.
 */
module Scheduler {

  datatype Option<T> = None | Some(value: T)

  /** Normalized time at which a playing frame clears the recording flag. */
  const StopTime: real := 1.5

  /** The fields of the editor window that the frame update and the GUI read and write. */
  datatype Recorder = Recorder(
    oldTime: real,                      // normalized time seen at the previous playing frame
    isRecording: bool,
    updateNowFlag: bool,                // restart the state and capture sample 0 at the next frame
    stateNames: Option<seq<string>>,    // None while no animator has been read
    currentStateIdx: int,
    snapNum: int,                       // number of samples, sample 0 included
    endNormalizeTime: real)             // normalized time of the (absent) last sample

  /** The field values a freshly opened window starts with. */
  const Initial: Recorder := Recorder(0.0, false, false, None, 0, 8, 1.0)

  /** The end of the sampled range stays within the slider's range. */
  predicate WellFormed(r: Recorder) {
    0.0 <= r.endNormalizeTime <= 1.0
  }

  /**
    The name of the selected animation state: the entry at the selected index,
    or the empty name when there is no list or the index is outside it.
   */
  function StateName(names: Option<seq<string>>, idx: int): (name: string)
    ensures names.Some? && 0 <= idx < |names.value| ==> name == names.value[idx]
    ensures names.None? || idx < 0 || idx >= |names.value| ==> name == ""
    ensures name != "" ==> names.Some? && name in names.value
  {
    if names.None? || idx < 0 || idx >= |names.value| then "" else names.value[idx]
  }

  /** What decides which samples a frame captures. */
  datatype Sampling = Sampling(stateName: string, snapNum: int, endTime: real)

  function SamplingOf(r: Recorder): Sampling {
    Sampling(StateName(r.stateNames, r.currentStateIdx), r.snapNum, r.endNormalizeTime)
  }

  /** Normalized time of sample `i`: the range [0, endTime] cut into `snapNum` equal parts. */
  function Checkpoint(endTime: real, snapNum: int, i: int): real
    requires snapNum > 0
  {
    endTime / snapNum as real * i as real
  }

  /**
    Sample `i` is taken by the sampling loop of a frame that moves the
    animation from `from` to `to` (the state name must be non-empty).
   */
  predicate Fires(p: Sampling, from: real, to: real, i: int) {
    && 1 <= i < p.snapNum
    && p.stateName != ""
    && from < Checkpoint(p.endTime, p.snapNum, i) <= to
  }

  /** One capture: every camera renders animation state `stateName` at sample `sample`. */
  datatype Shot = Shot(stateName: string, sample: nat)

  /** The captures of the sampling loop over indices 1 .. k-1, in loop order. */
  function LoopShots(p: Sampling, from: real, to: real, k: int): seq<Shot>
    decreases k
  {
    if k <= 1 then []
    else LoopShots(p, from, to, k - 1) + (if Fires(p, from, to, k - 1) then [Shot(p.stateName, k - 1)] else [])
  }

  /**
    The sampling loop takes exactly the samples below `k` that fire, each
    once, in increasing order, all of the current state.
   */
  lemma {:induction false} LoopShotsSpec(p: Sampling, from: real, to: real, k: int)
    decreases k
    ensures forall j :: 0 <= j < |LoopShots(p, from, to, k)| ==>
      && LoopShots(p, from, to, k)[j].stateName == p.stateName
      && LoopShots(p, from, to, k)[j].sample < k
      && Fires(p, from, to, LoopShots(p, from, to, k)[j].sample)
    ensures forall x: nat :: x < k && Fires(p, from, to, x) ==> Shot(p.stateName, x) in LoopShots(p, from, to, k)
    ensures forall a, b :: 0 <= a < b < |LoopShots(p, from, to, k)| ==>
      LoopShots(p, from, to, k)[a].sample < LoopShots(p, from, to, k)[b].sample
  {
    if k > 1 {
      LoopShotsSpec(p, from, to, k - 1);
      var prev := LoopShots(p, from, to, k - 1);
      var l := LoopShots(p, from, to, k);
      assert forall j :: 0 <= j < |prev| ==> l[j] == prev[j];
      if Fires(p, from, to, k - 1) {
        assert l[|prev|] == Shot(p.stateName, k - 1);
      }
    }
  }

  /** The fields after one frame and the captures the frame takes, in order. */
  datatype StepResult = StepResult(next: Recorder, shots: seq<Shot>)

  /**
    One frame of the editor window. Without a target animator nothing
    happens; outside play mode the flags and the state index are reset; in
    play mode a pending "play now" captures sample 0 first, then every sample
    whose checkpoint lies in (oldTime, nowTime] is captured, recording stops
    when the frame steps over `StopTime`, and `nowTime` becomes `oldTime`.
   */
  function Step(r: Recorder, hasAnimator: bool, isPlaying: bool, nowTime: real): StepResult
  {
    if !hasAnimator then StepResult(r, [])
    else if !isPlaying then
      StepResult(r.(updateNowFlag := false, isRecording := false, currentStateIdx := 0), [])
    else
      StepResult(
        r.(updateNowFlag := false,
           isRecording := if r.oldTime < StopTime <= nowTime then false else r.isRecording,
           oldTime := nowTime),
        FrameShots(r, nowTime))
  }

  /** Without a selected state the sampling loop captures nothing. */
  lemma {:induction false} LoopShotsNeedName(p: Sampling, from: real, to: real, k: int)
    requires p.stateName == ""
    ensures LoopShots(p, from, to, k) == []
    decreases k
  {
    if k > 1 {
      LoopShotsNeedName(p, from, to, k - 1);
    }
  }

  /** The captures of one playing frame, in the order they are taken. */
  function FrameShots(r: Recorder, nowTime: real): seq<Shot>
  {
    var p := SamplingOf(r);
    (if r.updateNowFlag then [Shot(p.stateName, 0)] else []) + LoopShots(p, r.oldTime, nowTime, r.snapNum)
  }

  /**
    Without a target animator a frame changes nothing and captures nothing;
    outside play mode it clears both flags, selects state 0, keeps `oldTime`
    and captures nothing.
   */
  lemma StepGuards(r: Recorder, isPlaying: bool, nowTime: real)
    ensures Step(r, false, isPlaying, nowTime) == StepResult(r, [])
    ensures var s := Step(r, true, false, nowTime);
      && s.shots == []
      && !s.next.updateNowFlag && !s.next.isRecording && s.next.currentStateIdx == 0
      && s.next.oldTime == r.oldTime
      && s.next.snapNum == r.snapNum && s.next.endNormalizeTime == r.endNormalizeTime
      && s.next.stateNames == r.stateNames
  {
  }

  /**
    A playing frame leaves the settings alone, clears "play now", remembers
    `nowTime`, and clears the recording flag exactly when it steps over
    `StopTime`.
   */
  lemma StepPlayingState(r: Recorder, nowTime: real)
    ensures var n := Step(r, true, true, nowTime).next;
      && n.oldTime == nowTime
      && !n.updateNowFlag
      && (n.isRecording <==> r.isRecording && !(r.oldTime < StopTime <= nowTime))
      && n.stateNames == r.stateNames && n.currentStateIdx == r.currentStateIdx
      && n.snapNum == r.snapNum && n.endNormalizeTime == r.endNormalizeTime
  {
  }

  /**
    The captures of a playing frame are exactly sample 0 when "play now" is
    pending (even for an empty state name) and the samples whose checkpoints
    the frame steps over; all are of the selected state.
   */
  lemma {:induction false} FrameShotsMembers(r: Recorder, nowTime: real)
    ensures forall j :: 0 <= j < |FrameShots(r, nowTime)| ==>
      FrameShots(r, nowTime)[j].stateName == SamplingOf(r).stateName
    ensures forall x: nat :: (Shot(SamplingOf(r).stateName, x) in FrameShots(r, nowTime)
      <==> (x == 0 && r.updateNowFlag) || Fires(SamplingOf(r), r.oldTime, nowTime, x))
  {
    var p := SamplingOf(r);
    LoopShotsSpec(p, r.oldTime, nowTime, r.snapNum);
    var l := LoopShots(p, r.oldTime, nowTime, r.snapNum);
    var s := FrameShots(r, nowTime);
    var first := if r.updateNowFlag then [Shot(p.stateName, 0)] else [];
    assert s == first + l;
    forall x: nat
      ensures Shot(p.stateName, x) in s <==> Shot(p.stateName, x) in first || Shot(p.stateName, x) in l
    {
    }
    forall x: nat | Shot(p.stateName, x) in l
      ensures Fires(p, r.oldTime, nowTime, x)
    {
      var j :| 0 <= j < |l| && l[j] == Shot(p.stateName, x);
    }
  }

  /**
    A playing frame takes the pending sample 0 first, then the others in
    increasing order, so no sample twice.
   */
  lemma {:induction false} FrameShotsOrder(r: Recorder, nowTime: real)
    ensures r.updateNowFlag ==> |FrameShots(r, nowTime)| > 0 && FrameShots(r, nowTime)[0].sample == 0
    ensures forall a, b :: 0 <= a < b < |FrameShots(r, nowTime)| ==>
      FrameShots(r, nowTime)[a].sample < FrameShots(r, nowTime)[b].sample
  {
    var p := SamplingOf(r);
    LoopShotsSpec(p, r.oldTime, nowTime, r.snapNum);
    var l := LoopShots(p, r.oldTime, nowTime, r.snapNum);
    var s := FrameShots(r, nowTime);
    if r.updateNowFlag {
      assert s == [Shot(p.stateName, 0)] + l;
      assert s[1..] == l;
    }
  }

  /** With fewer than two samples the sampling loop captures nothing. */
  lemma NoLoopShotsBelowTwo(r: Recorder, nowTime: real)
    requires r.snapNum <= 1
    ensures FrameShots(r, nowTime) == if r.updateNowFlag then [Shot(SamplingOf(r).stateName, 0)] else []
  {
  }

  /** Which samples a frame captures does not depend on the recording flag. */
  lemma ShotsIgnoreRecording(r: Recorder, hasAnimator: bool, isPlaying: bool, nowTime: real, recording: bool)
    ensures Step(r.(isRecording := recording), hasAnimator, isPlaying, nowTime).shots
         == Step(r, hasAnimator, isPlaying, nowTime).shots
  {
  }

  /** What the window's widgets return in one GUI redraw. */
  datatype GuiInput = GuiInput(
    isPlaying: bool,          // the host is in play mode
    runPressed: bool,         // the "run" button shown outside play mode
    popupIndex: int,          // the state popup
    snapField: int,           // the sample-count field
    sliderValue: real,        // the end-time slider
    playOnlyPressed: bool,    // the "play only" button
    recordPressed: bool)      // the "record" button

  /** The slider only yields values in its range [0, 1]. */
  function Clamp01(x: real): (y: real)
    ensures 0.0 <= y <= 1.0
    ensures 0.0 <= x <= 1.0 ==> y == x
    ensures x < 0.0 ==> y == 0.0
    ensures x > 1.0 ==> y == 1.0
  {
    if x < 0.0 then 0.0 else if x > 1.0 then 1.0 else x
  }

  /** Re-reading the state names of a newly selected animator; a cleared selection keeps the old list. */
  function ChangeTarget(r: Recorder, targetStates: Option<seq<string>>): Recorder
  {
    match targetStates
    case None => r
    case Some(_) => r.(stateNames := targetStates)
  }

  /**
    One GUI redraw after the target has been handled. Outside play mode
    recording stops. While recording the settings are locked. Otherwise the
    widgets set the state index (only when a list of names exists), the sample
    count and the end time; "play only" requests a restart, "record" requests
    a restart and starts recording.
   */
  function Gui(r: Recorder, g: GuiInput): Recorder
  {
    if !g.isPlaying then r.(isRecording := false)
    else if r.isRecording then r
    else
      r.(currentStateIdx := if r.stateNames.Some? then g.popupIndex else r.currentStateIdx,
         snapNum := g.snapField,
         endNormalizeTime := Clamp01(g.sliderValue),
         updateNowFlag := r.updateNowFlag || g.playOnlyPressed || g.recordPressed,
         isRecording := g.recordPressed)
  }

  /**
    A new target keeps the selected index, so the selected state becomes the
    new list's entry at the old index, or none when the index is outside the
    new list; then a playing frame captures nothing but a pending sample 0.
    Losing the target changes nothing.
   */
  lemma ChangeTargetSelection(r: Recorder, names: seq<string>, nowTime: real)
    ensures ChangeTarget(r, None) == r
    ensures SamplingOf(ChangeTarget(r, Some(names)))
         == Sampling(if 0 <= r.currentStateIdx < |names| then names[r.currentStateIdx] else "",
                     r.snapNum, r.endNormalizeTime)
    ensures !(0 <= r.currentStateIdx < |names|) ==>
      FrameShots(ChangeTarget(r, Some(names)), nowTime) == if r.updateNowFlag then [Shot("", 0)] else []
  {
    var n := ChangeTarget(r, Some(names));
    if !(0 <= r.currentStateIdx < |names|) {
      LoopShotsNeedName(SamplingOf(n), n.oldTime, nowTime, n.snapNum);
    }
  }

  /** Outside play mode a redraw stops recording and changes nothing else. */
  lemma GuiNotPlaying(r: Recorder, g: GuiInput)
    requires !g.isPlaying
    ensures Gui(r, g) == r.(isRecording := false)
  {
  }

  /** While recording in play mode no redraw changes any field: the settings are locked. */
  lemma GuiWhileRecording(r: Recorder, g: GuiInput)
    requires g.isPlaying && r.isRecording
    ensures Gui(r, g) == r
  {
  }

  /**
    A whole redraw while recording in play mode, target handling included:
    the state index, the sample count, the end time, both flags and the
    remembered time stay as they were; only a newly picked animator's names
    replace the list.
   */
  lemma GuiRecordingKeepsSettings(r: Recorder, targetStates: Option<seq<string>>, g: GuiInput)
    requires g.isPlaying && r.isRecording
    ensures var n := Gui(ChangeTarget(r, targetStates), g);
      && n.currentStateIdx == r.currentStateIdx && n.snapNum == r.snapNum
      && n.endNormalizeTime == r.endNormalizeTime
      && n.isRecording && n.updateNowFlag == r.updateNowFlag && n.oldTime == r.oldTime
      && n.stateNames == (if targetStates.Some? then targetStates else r.stateNames)
  {
  }

  /**
    In play mode and not recording, "play only" requests a restart without
    recording, "record" requests a restart and starts recording, and with
    neither pressed the flags stay as they were.
   */
  lemma GuiIdle(r: Recorder, g: GuiInput)
    requires g.isPlaying && !r.isRecording
    ensures var n := Gui(r, g);
      && (n.isRecording <==> g.recordPressed)
      && (n.updateNowFlag <==> r.updateNowFlag || g.playOnlyPressed || g.recordPressed)
      && n.snapNum == g.snapField
      && (r.stateNames.None? ==> n.currentStateIdx == r.currentStateIdx)
      && n.oldTime == r.oldTime && n.stateNames == r.stateNames
  {
  }

  /**
    Recording starts only from the "record" button in play mode; a frame never
    starts it. The end time stays within [0, 1] under both.
   */
  lemma RecordingStartsOnlyByButton(r: Recorder, g: GuiInput, hasAnimator: bool, isPlaying: bool, nowTime: real)
    ensures Gui(r, g).isRecording && !r.isRecording ==> g.isPlaying && g.recordPressed
    ensures Step(r, hasAnimator, isPlaying, nowTime).next.isRecording ==> r.isRecording
    ensures WellFormed(r) ==> WellFormed(Gui(r, g)) && WellFormed(Step(r, hasAnimator, isPlaying, nowTime).next)
  {
  }
}
