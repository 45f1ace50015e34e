# BillBoardCreator capture scheduler in Dafny

This project models the core of the Unity editor window `BillBoardCreator`
(`Assets/BillBoardTool/Editor/BillBoardCreator.cs`). The window captures
billboard sprites of an animated character. While the host editor plays, each
frame compares the animation's normalized time with evenly spaced checkpoints.
When a frame passes a checkpoint, the window places a ring of eight cameras
around the world's vertical axis, at the main camera's height and horizontal
distance from that axis, each looking at the axis. It renders each camera to a
PNG file and then removes the cameras. The GUI picks the target animator and the animation state, the number
of samples and the end of the sampled range. It also has buttons to "play
only" and to "record".

The project has four modules:

- `CapturePaths` (`paths.dfy`) builds the output file names. It models the
  .NET `{0:D2}` index format as `D2`. It proves that names are injective in
  (camera, sample) and that the file list of one capture has one file per
  occupied camera slot, in slot order, with no file written twice.
- `Scheduler` (`scheduler.dfy`) holds the window's fields as a value
  (`Recorder`). It defines one frame as the function `Step` and one GUI redraw
  as the function `Gui`. Lemmas state the guards, the sampling rule, the
  capture order and the GUI transitions.
- `Runs` (`runs.dfy`) covers several playing frames in a row (`Run`). When
  normalized time never decreases, each checkpoint fires at most once. It
  fires exactly when the run's time interval reaches it, and captures come in
  increasing sample order. Recording stops exactly when a frame steps over
  normalized time 1.5.
- `Creator` (`creator.dfy`) is the window itself, a class whose fields are
  updated in place. `Update`, `OnGUI`, `OnEnable` and
  `OnChangeTargetAnimator` are proved against `Step`, `Gui` and
  `ChangeTarget`: the new fields are exactly the `Recorder` those functions
  compute. The camera ring is an `array<Camera?>`. `DestroyCameras` empties
  it in place and `SaveRenderResult` skips empty slots. Each capture returns
  the file paths it writes.

Engine queries become inputs:

- play mode (`isPlaying`);
- the current normalized time (`nowTime`), read after a pending restart;
- the animators found in the scene;
- the animator picked in the object field;
- the values the widgets return (`GuiInput`).

Normalized times are `real`.

One capture per checkpoint holds only under these conditions:

- Sample 0 comes from the "play now" request, not from a checkpoint, and it
  is taken even when the state name is empty.
- Samples 1 .. snapNum-1 fire only when the state name is non-empty.
- They fire exactly once only when the animation's time does not go
  backwards (`RunShotsDistinct`, `RunFiresExactlyWhenCrossed`).
- No sample is taken at the end time itself.

## Model

| member | source | states |
|---|---|---|
| CapturePaths.DigitsSpec | Assets/BillBoardTool/Editor/BillBoardCreator.cs:228 | the decimal rendering of an index is a non-empty run of digits with no leading zero, one digit exactly below 10, reading back as the index |
| CapturePaths.D2Spec | Assets/BillBoardTool/Editor/BillBoardCreator.cs:228 | `{0:D2}` yields at least two digits, exactly two below 100, no leading zero when longer, and reads back as the index |
| CapturePaths.D2Small | Assets/BillBoardTool/Editor/BillBoardCreator.cs:228 | below 100, `{0:D2}` is the tens digit followed by the units digit |
| CapturePaths.D2Injective | Assets/BillBoardTool/Editor/BillBoardCreator.cs:228 | different indices never format to the same text |
| CapturePaths.CapturePathTwoDigits | Assets/BillBoardTool/Editor/BillBoardCreator.cs:227-228 | for indices below 100 the file is `BillBoardCapture/<object>-<state>-pat-CC-SS.png` with two digits each for camera and sample |
| CapturePaths.CapturePathInjective | Assets/BillBoardTool/Editor/BillBoardCreator.cs:227-228 | for one object and state, different (camera, sample) pairs give different file names |
| CapturePaths.SlotPathsMembers | Assets/BillBoardTool/Editor/BillBoardCreator.cs:219-229 | a capture writes no more files than the slots it looks at, and each file written is the file of an occupied slot below k |
| CapturePaths.SlotPathsHasCamera | Assets/BillBoardTool/Editor/BillBoardCreator.cs:219-229 | the file of camera c is written if and only if slot c holds a camera; empty slots are skipped |
| CapturePaths.SlotPathsDistinct | Assets/BillBoardTool/Editor/BillBoardCreator.cs:219-229 | a capture never writes the same file twice |
| CapturePaths.FullSlotPaths | Assets/BillBoardTool/Editor/BillBoardCreator.cs:219-229 | with every slot filled, the files are exactly those of cameras 0 .. k-1, in order |
| Scheduler.StateName | Assets/BillBoardTool/Editor/BillBoardCreator.cs:34-44 | the selected name is the list entry at an in-range index, and "" with no list or an out-of-range index; a non-empty result is one of the names |
| Scheduler.LoopShotsSpec | Assets/BillBoardTool/Editor/BillBoardCreator.cs:100-107 | the sampling loop takes index i exactly when 1 <= i < snapNum, the state name is non-empty and the checkpoint lies in (oldTime, nowTime]; indices come out increasing |
| Scheduler.StepGuards | Assets/BillBoardTool/Editor/BillBoardCreator.cs:77-86 | with no target a frame changes nothing and captures nothing; outside play mode it clears both flags, selects state 0, keeps oldTime and captures nothing |
| Scheduler.StepPlayingState | Assets/BillBoardTool/Editor/BillBoardCreator.cs:89-113 | a playing frame clears "play now", remembers nowTime, clears recording exactly when oldTime < 1.5 <= nowTime, and keeps the settings |
| Scheduler.FrameShotsMembers | Assets/BillBoardTool/Editor/BillBoardCreator.cs:89-107 | a playing frame captures sample x if and only if x is 0 with "play now" pending (even with an empty state name) or the checkpoint of x fires; all captures are of the selected state |
| Scheduler.FrameShotsOrder | Assets/BillBoardTool/Editor/BillBoardCreator.cs:89-107 | a pending sample 0 comes first, and the samples of a frame are strictly increasing |
| Scheduler.NoLoopShotsBelowTwo | Assets/BillBoardTool/Editor/BillBoardCreator.cs:100 | with snapNum <= 1 only the pending sample 0 is captured |
| Scheduler.ShotsIgnoreRecording | Assets/BillBoardTool/Editor/BillBoardCreator.cs:89-107 | which samples a frame captures does not depend on the recording flag |
| Scheduler.Clamp01 | Assets/BillBoardTool/Editor/BillBoardCreator.cs:144 | the end-time slider yields a value in [0, 1], the given value when inside, the nearer bound otherwise |
| Scheduler.ChangeTargetSelection | Assets/BillBoardTool/Editor/BillBoardCreator.cs:61-72 | a new target keeps the selected index, so the selected state is the new list's entry at that index, or "" outside it, and then a playing frame captures only a pending sample 0; no target changes nothing |
| Scheduler.LoopShotsNeedName | Assets/BillBoardTool/Editor/BillBoardCreator.cs:100-107 | with an empty state name the sampling loop captures nothing |
| Scheduler.GuiNotPlaying | Assets/BillBoardTool/Editor/BillBoardCreator.cs:127-136 | outside play mode a redraw clears the recording flag and changes nothing else |
| Scheduler.GuiWhileRecording | Assets/BillBoardTool/Editor/BillBoardCreator.cs:137-158 | after the target is handled, a redraw while recording in play mode changes no field |
| Scheduler.GuiRecordingKeepsSettings | Assets/BillBoardTool/Editor/BillBoardCreator.cs:120-158 | a whole redraw while recording in play mode keeps the state index, sample count, end time, flags and oldTime; only a newly picked animator's names replace the list |
| Scheduler.GuiIdle | Assets/BillBoardTool/Editor/BillBoardCreator.cs:137-154 | playing and not recording: recording starts if and only if "record" is pressed, "play now" is set by either button or kept, the sample count is taken, the index only with a list |
| Scheduler.RecordingStartsOnlyByButton | Assets/BillBoardTool/Editor/BillBoardCreator.cs:74-158 | recording starts only by "record" in play mode, never by a frame; the end time stays within [0, 1] under both |
| Runs.RunKeepsSettings | Assets/BillBoardTool/Editor/BillBoardCreator.cs:74-114 | after a run of playing frames the settings are unchanged, "play now" is clear and oldTime is the last time |
| Runs.RunStopsRecording | Assets/BillBoardTool/Editor/BillBoardCreator.cs:109-113 | with non-decreasing times a run ends recording if and only if some frame steps over 1.5 |
| Runs.RunShotsMembers | Assets/BillBoardTool/Editor/BillBoardCreator.cs:89-113 | a run captures sample x if and only if x = 0 with "play now" pending, or its checkpoint lies in (oldTime, t0] or (t0, last time] |
| Runs.RunFiresExactlyWhenCrossed | Assets/BillBoardTool/Editor/BillBoardCreator.cs:100-113 | when time never goes back, a run captures a loop sample if and only if its checkpoint lies in (oldTime, last time] |
| Runs.RunShotsBeforeEnd | Assets/BillBoardTool/Editor/BillBoardCreator.cs:100-107 | every capture of a run is sample 0 or a loop sample whose checkpoint is at most the run's last time |
| Runs.RunShotsDistinct | Assets/BillBoardTool/Editor/BillBoardCreator.cs:100-113 | with non-decreasing times no sample is captured twice in a run |
| Runs.RunShotsIncreasing | Assets/BillBoardTool/Editor/BillBoardCreator.cs:100-113 | with non-decreasing times and a non-negative end time a run's captures come in strictly increasing sample order |
| Runs.CheckpointMonotone | Assets/BillBoardTool/Editor/BillBoardCreator.cs:102 | with a non-negative end time, later samples have later or equal checkpoints |
| Creator.RingPathsSpec | Assets/BillBoardTool/Editor/BillBoardCreator.cs:161-181 | a capture with the full ring writes exactly eight files, camera i's at position i |
| Creator.RingPathsDisjoint | Assets/BillBoardTool/Editor/BillBoardCreator.cs:227-228 | two captures of one state with different samples share no file |
| Creator.FrameFilesDisjoint | Assets/BillBoardTool/Editor/BillBoardCreator.cs:89-107 | no two captures of one frame write the same file |
| Creator.BillBoardCreator.constructor | Assets/BillBoardTool/Editor/BillBoardCreator.cs:14-31 | a new window has an empty ring of eight slots, oldTime 0, eight samples, end time 1, both flags clear, no target and no names |
| Creator.BillBoardCreator.OnEnable | Assets/BillBoardTool/Editor/BillBoardCreator.cs:51-59 | opening the window targets the first animator found, if any, and reads its state names |
| Creator.BillBoardCreator.OnChangeTargetAnimator | Assets/BillBoardTool/Editor/BillBoardCreator.cs:61-72 | the state-name list becomes a copy of the target's state names; without a target nothing changes |
| Creator.BillBoardCreator.Update | Assets/BillBoardTool/Editor/BillBoardCreator.cs:74-114 | the fields after a frame and the captures it takes are exactly those of `Step`; each capture writes the ring's files for its state and sample |
| Creator.BillBoardCreator.SnapLoop | Assets/BillBoardTool/Editor/BillBoardCreator.cs:100-107 | the loop's captures are exactly the loop samples that fire, in order, and leave the fields unchanged |
| Creator.BillBoardCreator.OnGUI | Assets/BillBoardTool/Editor/BillBoardCreator.cs:116-159 | the target becomes the picked animator, its names are re-read when it changed, then the fields become those of `Gui`; play is requested only by the run button outside play mode |
| Creator.BillBoardCreator.SnapShot | Assets/BillBoardTool/Editor/BillBoardCreator.cs:161-166 | one capture writes the full ring's files for the selected state and the given sample and leaves the ring empty |
| Creator.BillBoardCreator.CreateCameras | Assets/BillBoardTool/Editor/BillBoardCreator.cs:168-181 | after it every slot of the ring holds a camera |
| Creator.BillBoardCreator.DestroyCameras | Assets/BillBoardTool/Editor/BillBoardCreator.cs:199-211 | after it every slot of the ring is empty |
| Creator.BillBoardCreator.SaveRenderResult | Assets/BillBoardTool/Editor/BillBoardCreator.cs:213-231 | one file per occupied slot, in slot order, named after the target object, the selected state (not `filehead`), the slot and the sample |

## Left out

- Camera placement (`CreateCameraObject`, sin/cos, `LookAt`, field of view, clear colour, render-texture size) is not modelled; a camera is an object with no state.
- Rendering, `RenderTexture`/`Texture2D` handling, `ReadPixels`, PNG encoding, directory creation and file writes become the list of paths a capture writes; `Debug.LogError` for an empty slot is reduced to skipping the slot.
- `Animator.Play` and `Animator.Update(0)` are not modelled; the time they produce is the `nowTime` input of `Update`.
- `Application.targetFrameRate`, `Time.captureFramerate` and `Repaint` have no effect on the model.
- Widget drawing, labels and the menu entry `Create` are left out; only the values the widgets return are inputs.
- Setting `EditorApplication.isPlaying` is the `requestPlay` result of `OnGUI`.
- `Resources.FindObjectsOfTypeAll` and the reading of the animator controller's first layer are inputs: the scene's animators and each animator's list of state names.
- An animator whose controller is not an editor `AnimatorController`, or has no layer, makes the source throw while reading the names (:64-65), after `targetAnimator` was already assigned, so `stateNames` stays stale; the model gives every animator a list of state names and does not model that exception.
- Camera.main being required by `CreateCameras` is not modelled.
- Single-precision rounding of `endNormalizeTime / snapNum * i` and of the animation's time is not modelled; times are exact reals.
- Scheduler.Clamp01: the slider's clamping to [0, 1] is modelled as a clamp of the value the slider returns.
- Unity's notion of a destroyed object comparing equal to null is not modelled; a slot is empty only when it holds null.
- Creator.BillBoardCreator.SaveRenderResult: requires a target animator, which the source dereferences for every occupied slot.
