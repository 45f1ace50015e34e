/**
  The billboard editor window as an object.

  The window's fields are updated in place by the host's per-frame `Update`
  and per-redraw `OnGUI` callbacks. Each method here is proved against the
  value-level `Step` and `Gui` of module Scheduler: the fields afterwards are
  the `Recorder` those functions compute from the fields before. Engine
  queries (play mode, the animation's normalized time, the animators in the
  scene, the widget values) are parameters; rendering and file writes become
  the list of file paths a capture writes.
 */
module Creator {

  import opened Scheduler
  import opened CapturePaths

  /** Number of cameras placed around the target for each capture. */
  const CameraNum: nat := 8

  /** A camera made for one capture; its placement, render target and settings are not modelled. */
  class Camera {
  }

  /** An animator in the scene: the name of its game object and the names of the states of its controller's first layer. */
  class Animator {
    const objectName: string
    const stateNames: seq<string>

    constructor (objectName: string, stateNames: seq<string>)
      ensures this.objectName == objectName && this.stateNames == stateNames
    {
      this.objectName := objectName;
      this.stateNames := stateNames;
    }
  }

  /** Which camera slots hold a camera. */
  function Occupied(slots: seq<Camera?>): seq<bool>
  {
    seq(|slots|, i requires 0 <= i < |slots| => slots[i] != null)
  }

  /** Every slot of the ring holds a camera. */
  function FullRing(): (ring: seq<bool>)
    ensures |ring| == CameraNum && forall i :: 0 <= i < |ring| ==> ring[i]
  {
    seq(CameraNum, _ => true)
  }

  /** The files one capture writes with a full ring of cameras. */
  function RingPaths(objName: string, shot: Shot): seq<string>
  {
    SlotPaths(objName, shot.stateName, FullRing(), shot.sample, CameraNum)
  }

  /** With the full ring, a capture writes one file per camera, in camera order. */
  lemma RingPathsSpec(objName: string, shot: Shot)
    ensures |RingPaths(objName, shot)| == CameraNum
    ensures forall c :: 0 <= c < CameraNum ==> RingPaths(objName, shot)[c] == CapturePath(objName, shot.stateName, c, shot.sample)
  {
    FullSlotPaths(objName, shot.stateName, FullRing(), shot.sample, CameraNum);
  }

  /** Two captures of the same state with different samples write no file in common. */
  lemma RingPathsDisjoint(objName: string, s1: Shot, s2: Shot)
    requires s1.stateName == s2.stateName && s1.sample != s2.sample
    ensures forall i, j :: 0 <= i < |RingPaths(objName, s1)| && 0 <= j < |RingPaths(objName, s2)| ==>
      RingPaths(objName, s1)[i] != RingPaths(objName, s2)[j]
  {
    RingPathsSpec(objName, s1);
    RingPathsSpec(objName, s2);
    forall i, j | 0 <= i < CameraNum && 0 <= j < CameraNum
      ensures CapturePath(objName, s1.stateName, i, s1.sample) != CapturePath(objName, s2.stateName, j, s2.sample)
    {
      if CapturePath(objName, s1.stateName, i, s1.sample) == CapturePath(objName, s2.stateName, j, s2.sample) {
        CapturePathInjective(objName, s1.stateName, i, s1.sample, j, s2.sample);
      }
    }
  }

  /**
    No file written in one frame is written twice in that frame: the
    captures of a frame are of one state with distinct samples, so their
    files never coincide.
   */
  lemma FrameFilesDisjoint(objName: string, r: Recorder, nowTime: real)
    ensures forall a, b, i, j ::
      (&& 0 <= a < b < |FrameShots(r, nowTime)|
       && 0 <= i < |RingPaths(objName, FrameShots(r, nowTime)[a])|
       && 0 <= j < |RingPaths(objName, FrameShots(r, nowTime)[b])|) ==>
      RingPaths(objName, FrameShots(r, nowTime)[a])[i] != RingPaths(objName, FrameShots(r, nowTime)[b])[j]
  {
    var s := FrameShots(r, nowTime);
    FrameShotsMembers(r, nowTime);
    FrameShotsOrder(r, nowTime);
    forall a, b | 0 <= a < b < |s|
      ensures forall i, j :: 0 <= i < |RingPaths(objName, s[a])| && 0 <= j < |RingPaths(objName, s[b])| ==>
        RingPaths(objName, s[a])[i] != RingPaths(objName, s[b])[j]
    {
      RingPathsDisjoint(objName, s[a], s[b]);
    }
  }

  /** `files` lists, capture by capture, the files each of `shots` writes. */
  predicate WrittenBy(objName: string, shots: seq<Shot>, files: seq<seq<string>>)
  {
    |files| == |shots| && forall j :: 0 <= j < |shots| ==> files[j] == RingPaths(objName, shots[j])
  }

  class BillBoardCreator {
    const cameras: array<Camera?>

    var oldTime: real
    var snapNum: int
    var endNormalizeTime: real
    var isRecording: bool
    var updateNowFlag: bool

    var targetAnimator: Animator?
    var stateNames: Option<seq<string>>
    var currentStateIdx: int

    /**
      Between callbacks the ring has its fixed size and holds no camera (they
      exist only during a capture), and the end time is within [0, 1].
     */
    ghost predicate Valid()
      reads this, cameras
    {
      && cameras.Length == CameraNum
      && (forall i :: 0 <= i < cameras.Length ==> cameras[i] == null)
      && WellFormed(Model())
    }

    /** The scheduling fields as a value. */
    function Model(): Recorder
      reads this
    {
      Recorder(oldTime, isRecording, updateNowFlag, stateNames, currentStateIdx, snapNum, endNormalizeTime)
    }

    /** The state names the current target offers, if there is a target. */
    function TargetStates(): Option<seq<string>>
      reads this
    {
      if targetAnimator == null then None else Some(targetAnimator.stateNames)
    }

    constructor ()
      ensures Valid() && fresh(cameras)
      ensures Model() == Initial && targetAnimator == null
    {
      cameras := new Camera?[CameraNum](_ => null);
      oldTime := 0.0;
      snapNum := 8;
      endNormalizeTime := 1.0;
      isRecording := false;
      updateNowFlag := false;
      targetAnimator := null;
      stateNames := None;
      currentStateIdx := 0;
    }

    /**
      Opening the window targets the first animator found in the scene, if
      any, and reads its state names.
     */
    method OnEnable(animators: seq<Animator>)
      requires Valid()
      modifies this
      ensures Valid()
      ensures targetAnimator == if |animators| > 0 then animators[0] else old(targetAnimator)
      ensures Model() == ChangeTarget(old(Model()), TargetStates())
    {
      if |animators| > 0 {
        targetAnimator := animators[0];
      }
      OnChangeTargetAnimator();
    }

    /** Copies the target's state names; without a target the old list stays. */
    method OnChangeTargetAnimator()
      requires Valid()
      modifies this
      ensures Valid()
      ensures targetAnimator == old(targetAnimator)
      ensures Model() == ChangeTarget(old(Model()), TargetStates())
    {
      if targetAnimator == null {
        return;
      }
      var states := targetAnimator.stateNames;
      var names: seq<string> := [];
      for i := 0 to |states|
        invariant names == states[..i]
      {
        names := names + [states[i]];
      }
      assert names == states;
      stateNames := Some(names);
    }

    /**
      One frame. `isPlaying` is the host's play mode and `nowTime` the
      normalized time of the target's current state, read after a pending
      restart. Returns the captures taken, in order, and the files they write.
     */
    method Update(isPlaying: bool, nowTime: real) returns (shots: seq<Shot>, files: seq<seq<string>>)
      requires Valid()
      modifies this, cameras
      ensures Valid()
      ensures targetAnimator == old(targetAnimator)
      ensures Step(old(Model()), old(targetAnimator) != null, isPlaying, nowTime) == StepResult(Model(), shots)
      ensures if targetAnimator == null then files == [] else WrittenBy(targetAnimator.objectName, shots, files)
    {
      shots, files := [], [];
      if targetAnimator == null {
        return;
      }
      if !isPlaying {
        updateNowFlag := false;
        isRecording := false;
        currentStateIdx := 0;
        return;
      }
      if updateNowFlag {
        // restarting the state on the animator is not modelled
        var name := StateName(stateNames, currentStateIdx);
        var written := SnapShot(name, 0);
        shots, files := [Shot(name, 0)], [written];
        updateNowFlag := false;
      }
      var more, moreFiles := SnapLoop(nowTime);
      shots, files := shots + more, files + moreFiles;
      if oldTime < StopTime && StopTime <= nowTime {
        isRecording := false;
      }
      oldTime := nowTime;
    }

    /**
      The sampling loop of one frame: captures sample `i` for every `i` in
      1 .. snapNum-1 whose checkpoint the animation passed since the last
      frame, as long as a state is selected.
     */
    method SnapLoop(nowTime: real) returns (shots: seq<Shot>, files: seq<seq<string>>)
      requires Valid() && targetAnimator != null
      modifies cameras
      ensures Valid()
      ensures shots == LoopShots(SamplingOf(Model()), oldTime, nowTime, snapNum)
      ensures WrittenBy(targetAnimator.objectName, shots, files)
    {
      shots, files := [], [];
      ghost var p := SamplingOf(Model());
      var i := 1;
      while i < snapNum
        invariant 1 <= i <= if snapNum < 1 then 1 else snapNum
        invariant Valid()
        invariant shots == LoopShots(p, oldTime, nowTime, i)
        invariant WrittenBy(targetAnimator.objectName, shots, files)
      {
        var snapTime := endNormalizeTime / snapNum as real * i as real;
        var name := StateName(stateNames, currentStateIdx);
        assert Fires(p, oldTime, nowTime, i) <==> name != "" && oldTime < snapTime && snapTime <= nowTime;
        if name != "" && oldTime < snapTime && snapTime <= nowTime {
          var written := SnapShot(name, i);
          shots := shots + [Shot(name, i)];
          files := files + [written];
        }
        assert shots == LoopShots(p, oldTime, nowTime, i + 1);
        i := i + 1;
      }
    }

    /**
      One GUI redraw. `selected` is the animator the object field holds after
      the redraw and `g` what the other widgets return. Returns whether the
      "run" button asks the host to enter play mode.
     */
    method OnGUI(selected: Animator?, g: GuiInput) returns (requestPlay: bool)
      requires Valid()
      modifies this
      ensures Valid()
      ensures targetAnimator == selected
      ensures Model() == Gui(if selected != old(targetAnimator) then ChangeTarget(old(Model()), TargetStates()) else old(Model()), g)
      ensures requestPlay == (!g.isPlaying && g.runPressed)
    {
      var oldTargetAnimator := targetAnimator;
      targetAnimator := selected;
      if oldTargetAnimator != targetAnimator {
        OnChangeTargetAnimator();
      }
      if !g.isPlaying {
        requestPlay := g.runPressed;
        isRecording := false;
        return;
      }
      requestPlay := false;
      if !isRecording {
        if stateNames.Some? {
          currentStateIdx := g.popupIndex;
        }
        snapNum := g.snapField;
        endNormalizeTime := Clamp01(g.sliderValue);
        if g.playOnlyPressed {
          updateNowFlag := true;
        }
        if g.recordPressed {
          updateNowFlag := true;
          isRecording := true;
        }
      }
    }

    /**
      One capture: fill the ring, save every camera's render, clear the ring.
      Writes the file of every camera for the selected state and sample `idx`.
     */
    method SnapShot(name: string, idx: nat) returns (written: seq<string>)
      requires Valid() && targetAnimator != null
      modifies cameras
      ensures Valid()
      ensures written == RingPaths(targetAnimator.objectName, Shot(StateName(stateNames, currentStateIdx), idx))
    {
      CreateCameras();
      assert Occupied(cameras[..]) == FullRing();
      written := SaveRenderResult(name, idx);
      DestroyCameras();
    }

    /** Puts a new camera into every slot of the ring. */
    method CreateCameras()
      requires cameras.Length == CameraNum
      modifies cameras
      ensures forall i :: 0 <= i < cameras.Length ==> cameras[i] != null
    {
      for i := 0 to CameraNum
        invariant forall j :: 0 <= j < i ==> cameras[j] != null
      {
        cameras[i] := new Camera;
      }
    }

    /** Destroys the camera in every slot and empties the slot. */
    method DestroyCameras()
      modifies cameras
      ensures forall i :: 0 <= i < cameras.Length ==> cameras[i] == null
    {
      for i := 0 to cameras.Length
        invariant forall j :: 0 <= j < i ==> cameras[j] == null
      {
        if cameras[i] == null {
          continue;
        }
        // releasing the render target and destroying the camera's object are not modelled
        cameras[i] := null;
      }
    }

    /**
      The files the cameras' renders are saved to: one per occupied slot, in
      slot order, named after the target object, the selected state (not
      `filehead`, which goes unused) and sample `idx`; empty slots are skipped.
     */
    method SaveRenderResult(filehead: string, idx: nat) returns (paths: seq<string>)
      requires targetAnimator != null
      ensures paths == SlotPaths(targetAnimator.objectName, StateName(stateNames, currentStateIdx),
                                 Occupied(cameras[..]), idx, cameras.Length)
    {
      ghost var present := Occupied(cameras[..]);
      paths := [];
      for i := 0 to cameras.Length
        invariant paths == SlotPaths(targetAnimator.objectName, StateName(stateNames, currentStateIdx), present, idx, i)
      {
        if cameras[i] == null {
          // the source logs an error for the empty slot and goes on
          continue;
        }
        paths := paths + [CapturePath(targetAnimator.objectName, StateName(stateNames, currentStateIdx), i, idx)];
      }
    }
  }
}
