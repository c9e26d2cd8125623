/**
  The capture sequencer of the depth renderer's driver program.

  The program reads the calibration lists, sizes one window and one screenshot
  buffer from the first intrinsic, and then runs a loop over a camera index: render
  the camera, read the whole window back into the buffer, write the buffer to an
  image file named after the index, advance the index, present the frame and poll
  window events.  The loop ends when the window's close flag is raised, either by the
  loop itself once the index reaches the larger of the two list lengths, or by the
  user closing the window.

  The rasteriser, the window system, the user and the image writer are outside the
  model.  They appear as the `Environment` the run is given, and the run's observable
  effects are recorded, in order, as a log of `Event`s.
 */
module Capture {
  import opened Wrappers
  import opened Naming

  type byte = b: int | 0 <= b < 256

  /** Per-camera projection parameters, as the calibration reader returns them. */
  datatype Intrinsic = Intrinsic(fx: real, fy: real, cx: real, cy: real, width: nat, height: nat)

  /** Per-camera pose: a 3x3 rotation (row-major) and a translation. */
  datatype Extrinsic = Extrinsic(rotation: seq<real>, translation: seq<real>)

  /** What the renderer is given for one view. */
  datatype Camera = Camera(extrinsic: Extrinsic, intrinsic: Intrinsic)

  /**
    The colour attachment after the scene is rendered from a camera: the byte of
    channel `channel` (0 red, 1 green, 2 blue) of the pixel at (`column`, `row`),
    rows counted from the bottom of the window.  It is not interpreted here.
   */
  type Framebuffer = (Camera, int, int, nat) -> byte

  /** What the collaborators of the run supply. */
  datatype Environment = Environment(
    intrinsics: seq<Intrinsic>,
    extrinsics: seq<Extrinsic>,
    /** `Some(message)` when the graphics library fails to initialise. */
    contextError: Option<string>,
    framebuffer: Framebuffer,
    /** Whether the user closes the window while the `p`-th frame is presented. */
    userCloses: nat -> bool)

  /** The observable effects of a run, in the order they happen. */
  datatype Event =
    | WindowOpened(width: int, height: int)
    | Rendered(camera: Camera)
    | ScreenShotTaken(x: int, y: int, width: int, height: int)
    | ImageWritten(name: string, width: int, height: int, data: seq<byte>)

  /**
    How a run ends.  `Aborted` is the message of an exception reaching the catch-all
    handler.  `IndexOutOfRange` marks the point where the loop would index a
    calibration list past its end, which the program does not check.
   */
  datatype Outcome = Completed | Aborted(message: string) | IndexOutOfRange(camIdx: nat)

  const EmptyCalibrationMessage: string := "Intrinsics/Extrinsics are empty\n"

  function Max(a: nat, b: nat): nat { if a < b then b else a }
  function Min(a: nat, b: nat): nat { if a < b then a else b }

  /** The loop bound as the program computes it: the larger of the two counts. */
  function AsWrittenBound(env: Environment): (r: nat)
    ensures r >= |env.intrinsics| && r >= |env.extrinsics|
    ensures r == |env.intrinsics| || r == |env.extrinsics|
  {
    Max(|env.intrinsics|, |env.extrinsics|)
  }

  /** The loop bound that keeps both list accesses in range: the smaller count. */
  function CorrectedBound(env: Environment): (r: nat)
    ensures r <= |env.intrinsics| && r <= |env.extrinsics|
    ensures r == |env.intrinsics| || r == |env.extrinsics|
  {
    Min(|env.intrinsics|, |env.extrinsics|)
  }

  // ---------------------------------------------------------------------------
  // Specification of a run

  /** Byte `k` of a read-back of the `w`-wide region at (`x`, `y`): 3 bytes per pixel, row by row. */
  function RegionByte(fb: Framebuffer, cam: Camera, x: int, y: int, w: nat, k: nat): byte {
    if w == 0 then 0 else fb(cam, x + (k / 3) % w, y + (k / 3) / w, k % 3)
  }

  /** The `w` x `h` region at (`x`, `y`) of the image rendered from `cam`, packed as a read-back packs it. */
  function Region(fb: Framebuffer, cam: Camera, x: int, y: int, w: nat, h: nat): seq<byte> {
    seq(w * h * 3, k requires 0 <= k => RegionByte(fb, cam, x, y, w, k))
  }

  function WindowWidth(env: Environment): nat
    requires |env.intrinsics| > 0
  {
    env.intrinsics[0].width
  }

  function WindowHeight(env: Environment): nat
    requires |env.intrinsics| > 0
  {
    env.intrinsics[0].height
  }

  function CameraAt(env: Environment, i: nat): Camera
    requires i < |env.intrinsics| && i < |env.extrinsics|
  {
    Camera(env.extrinsics[i], env.intrinsics[i])
  }

  /**
    The effects of the iteration that handles camera `i`: render it, read the whole
    window back, write the buffer under the name of index `i` with the window size.
   */
  function Iteration(env: Environment, i: nat): seq<Event>
    requires i < |env.intrinsics| && i < |env.extrinsics|
  {
    var cam := CameraAt(env, i);
    var w, h := WindowWidth(env), WindowHeight(env);
    [Rendered(cam), ScreenShotTaken(0, 0, w, h),
     ImageWritten(OutputFileName(i), w, h, Region(env.framebuffer, cam, 0, 0, w, h))]
  }

  /** The effects of the first `k` iterations. */
  function Trace(env: Environment, k: nat): seq<Event>
    requires k <= |env.intrinsics| && k <= |env.extrinsics|
  {
    if k == 0 then [] else Trace(env, k - 1) + Iteration(env, k - 1)
  }

  /**
    The camera index at which the loop stops, for a loop head reached with index `p`
    and the close flag clear: at `bound` the loop raises the flag itself; below it, the
    loop runs one iteration and stops after it if the user closes the window while the
    frame `p + 1` is presented.
   */
  function FramesCaptured(userCloses: nat -> bool, bound: nat, p: nat): (r: nat)
    ensures p <= r
    ensures p < bound ==> p < r <= bound
    ensures p >= bound ==> r == p
    decreases bound - p
  {
    if p >= bound then p
    else if userCloses(p + 1) then p + 1
    else FramesCaptured(userCloses, bound, p + 1)
  }

  /**
    The outcome and the log of a whole run whose loop stops at `bound`: validation,
    window creation, then the loop, which ends normally or at the first list access
    past the end of a calibration list.
   */
  function ExpectedRun(env: Environment, bound: nat): (Outcome, seq<Event>) {
    if |env.intrinsics| == 0 || |env.extrinsics| == 0 then (Aborted(EmptyCalibrationMessage), [])
    else
      var window := [WindowOpened(WindowWidth(env), WindowHeight(env))];
      if env.contextError.Some? then (Aborted(env.contextError.value), window)
      else
        var k := FramesCaptured(env.userCloses, bound, 0);
        var m := Min(|env.intrinsics|, |env.extrinsics|);
        if k <= m then (Completed, window + Trace(env, k))
        else (IndexOutOfRange(m), window + Trace(env, m))
  }

  /** The names of the written images, in order. */
  function WrittenNames(log: seq<Event>): seq<string> {
    if log == [] then []
    else
      var last := log[|log| - 1];
      WrittenNames(log[..|log| - 1]) + if last.ImageWritten? then [last.name] else []
  }

  /** The names of the images of cameras 0 .. k - 1, in order. */
  function ExpectedNames(k: nat): seq<string> {
    seq(k, i requires 0 <= i => OutputFileName(i))
  }

  // ---------------------------------------------------------------------------
  // The state the loop works on

  /**
    The loop's state: the window size (set once from the first intrinsic), the
    screenshot buffer (allocated once and overwritten by every read-back), the camera
    index, the window's close flag, the camera the colour attachment was last rendered
    from, and the log of effects.
   */
  class CaptureSession {
    const width: nat
    const height: nat
    const buffer: array<byte>
    var camIdx: nat
    var closeRequested: bool
    var rendered: Option<Camera>
    var log: seq<Event>

    ghost predicate Valid()
      reads this
    {
      buffer.Length == width * height * 3
    }

    /** Window size fixed, a zero-filled buffer of `width * height * 3` bytes, index 0. */
    constructor (width: nat, height: nat)
      ensures Valid() && this.width == width && this.height == height
      ensures fresh(buffer) && forall k :: 0 <= k < buffer.Length ==> buffer[k] == 0
      ensures camIdx == 0 && !closeRequested && rendered == None && log == []
    {
      this.width := width;
      this.height := height;
      buffer := new byte[width * height * 3](_ => 0);
      camIdx := 0;
      closeRequested := false;
      rendered := None;
      log := [];
    }

    /** The window's close flag, as the loop head reads it. */
    function ShouldClose(): bool
      reads this
    {
      closeRequested
    }

    method SetShouldClose()
      modifies this
      ensures closeRequested
      ensures camIdx == old(camIdx) && rendered == old(rendered) && log == old(log)
    {
      closeRequested := true;
    }

    /** Sets the camera and renders: the colour attachment now holds the view from `cam`. */
    method Render(cam: Camera)
      modifies this
      ensures rendered == Some(cam) && log == old(log) + [Rendered(cam)]
      ensures camIdx == old(camIdx) && closeRequested == old(closeRequested)
    {
      rendered := Some(cam);
      log := log + [Rendered(cam)];
    }

    /**
      Reads the `w` x `h` region at (`x`, `y`) of the last rendered image into the
      front of the buffer.  The buffer must hold the `w * h * 3` bytes, and a render
      must have happened.
     */
    method ScreenShot(fb: Framebuffer, x: int, y: int, w: nat, h: nat)
      requires Valid() && rendered.Some?
      requires w * h * 3 <= buffer.Length
      modifies this, buffer
      ensures rendered == old(rendered)
      ensures buffer[..w * h * 3] == Region(fb, rendered.value, x, y, w, h)
      ensures buffer[w * h * 3..] == old(buffer[w * h * 3..])
      ensures log == old(log) + [ScreenShotTaken(x, y, w, h)]
      ensures camIdx == old(camIdx) && closeRequested == old(closeRequested)
    {
      var n := w * h * 3;
      var cam := rendered.value;
      forall k | 0 <= k < n {
        buffer[k] := RegionByte(fb, cam, x, y, w, k);
      }
      log := log + [ScreenShotTaken(x, y, w, h)];
    }

    /** Hands `data` to the image writer, which does nothing for a null buffer. */
    method WriteImage(data: array?<byte>, w: int, h: int, name: string)
      modifies this
      ensures log == if data == null then old(log) else old(log) + [ImageWritten(name, w, h, data[..])]
      ensures camIdx == old(camIdx) && closeRequested == old(closeRequested)
      ensures rendered == old(rendered)
    {
      if data == null {
        return;
      }
      log := log + [ImageWritten(name, w, h, data[..])];
    }

    method Advance()
      modifies this
      ensures camIdx == old(camIdx) + 1
      ensures closeRequested == old(closeRequested) && rendered == old(rendered) && log == old(log)
    {
      camIdx := camIdx + 1;
    }

    /** Presents the frame and polls events: the user may close the window now. */
    method PresentAndPoll(userCloses: nat -> bool)
      modifies this
      ensures closeRequested == (old(closeRequested) || userCloses(camIdx))
      ensures camIdx == old(camIdx) && rendered == old(rendered) && log == old(log)
    {
      closeRequested := closeRequested || userCloses(camIdx);
    }

    /** The render loop, stopping at camera index `bound`. */
    method CaptureLoop(env: Environment, bound: nat) returns (outcome: Outcome)
      requires Valid() && camIdx == 0 && !closeRequested && log == []
      requires |env.intrinsics| > 0
      requires width == WindowWidth(env) && height == WindowHeight(env)
      modifies this, buffer
      ensures var k := FramesCaptured(env.userCloses, bound, 0);
              var m := Min(|env.intrinsics|, |env.extrinsics|);
              if k <= m then outcome == Completed && log == Trace(env, k)
              else outcome == IndexOutOfRange(m) && log == Trace(env, m)
    {
      ghost var stop := FramesCaptured(env.userCloses, bound, 0);
      while !ShouldClose()
        invariant Valid()
        invariant camIdx <= bound && camIdx <= |env.intrinsics| && camIdx <= |env.extrinsics|
        invariant log == Trace(env, camIdx)
        invariant !closeRequested ==> FramesCaptured(env.userCloses, bound, camIdx) == stop
        invariant closeRequested ==> camIdx == stop
        decreases bound - camIdx + (if closeRequested then 0 else 1)
      {
        if camIdx >= bound {
          SetShouldClose();
          continue;
        }
        if camIdx >= |env.extrinsics| || camIdx >= |env.intrinsics| {
          return IndexOutOfRange(camIdx);
        }
        var cam := Camera(env.extrinsics[camIdx], env.intrinsics[camIdx]);
        Render(cam);
        ScreenShot(env.framebuffer, 0, 0, width, height);
        WriteImage(buffer, width, height, OutputFileName(camIdx));
        assert buffer[..] == buffer[..width * height * 3];
        assert log == Trace(env, camIdx) + Iteration(env, camIdx);
        Advance();
        PresentAndPoll(env.userCloses);
      }
      return Completed;
    }
  }

  // ---------------------------------------------------------------------------
  // Runs

  /**
    The driver program with the loop bound `bound`: reject empty calibration lists,
    open the window at the first intrinsic's size, allocate the buffer, run the loop.
   */
  method RunCapture(env: Environment, bound: nat) returns (outcome: Outcome, log: seq<Event>)
    ensures (outcome, log) == ExpectedRun(env, bound)
    ensures |env.intrinsics| == 0 || |env.extrinsics| == 0 ==>
              outcome == Aborted(EmptyCalibrationMessage) && log == []
  {
    var nIntrinsic, nExtrinsic := |env.intrinsics|, |env.extrinsics|;
    if nIntrinsic <= 0 || nExtrinsic <= 0 {
      return Aborted(EmptyCalibrationMessage), [];
    }
    var w, h := env.intrinsics[0].width, env.intrinsics[0].height;
    log := [WindowOpened(w, h)];
    if env.contextError.Some? {
      return Aborted(env.contextError.value), log;
    }
    var session := new CaptureSession(w, h);
    outcome := session.CaptureLoop(env, bound);
    log := log + session.log;
  }

  /** The program as written: the loop runs to the larger of the two counts. */
  method CaptureAsWritten(env: Environment) returns (outcome: Outcome, log: seq<Event>)
    ensures (outcome, log) == ExpectedRun(env, AsWrittenBound(env))
  {
    outcome, log := RunCapture(env, AsWrittenBound(env));
  }

  /** The program with the loop bounded by the smaller count. */
  method Capture(env: Environment) returns (outcome: Outcome, log: seq<Event>)
    ensures (outcome, log) == ExpectedRun(env, CorrectedBound(env))
    ensures !outcome.IndexOutOfRange?
    ensures |env.intrinsics| == |env.extrinsics| ==> (outcome, log) == ExpectedRun(env, AsWrittenBound(env))
  {
    outcome, log := RunCapture(env, CorrectedBound(env));
  }
}
