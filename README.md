# Capture sequencer of the depth renderer

This project models, in Dafny, the driver loop of a depth renderer. The program renders one mesh
from a list of calibrated cameras. It reads each rendered frame back into a single screenshot
buffer and writes one image file per camera. The model covers the sequence of steps in `main`:

- **Validation.** An empty intrinsic or extrinsic list is rejected before the window exists.
  The message is `"Intrinsics/Extrinsics are empty\n"`.
- **Sizing.** The window size W x H is taken from the first intrinsic only. One zero-filled
  buffer of W * H * 3 bytes is allocated, and every iteration reuses it.
- **The loop.** It is a state machine over the camera index `camIdx` and the window's close
  flag. Each iteration renders camera `camIdx`, reads the whole window (0, 0, W, H) into the
  buffer and writes the buffer. It then advances the index, presents the frame and polls
  events; the user may close the window during the poll. When the index reaches
  `max(nIntrinsic, nExtrinsic)`, the loop raises the close flag itself.
- **Naming.** The image of index `i` is written to `"output/images/"` + `i` right-aligned in
  a field of width 4 filled with `'0'` + `".png"`. An index of five or more digits is printed
  in full.

The files:

- `naming.dfy` (module `Naming`): the file-name formatter as pure functions. It has a parser
  for the names, the round trip between the two, the field-width facts and injectivity.
- `capture.dfy` (module `Capture`): the data model and the reference specification of a run:
  `Trace`, `FramesCaptured` and `ExpectedRun`. It also holds the class `CaptureSession`, with
  the loop's state and the steps as methods, and the runs that use it.
- `capture_properties.dfy` (module `CaptureProperties`): lemmas about the specification.
- `wrappers.dfy` (module `Wrappers`): `Option`.

State and effects:

- The rasteriser, the window system, the user and the image writer are given to a run as an
  `Environment`:
  - the two calibration lists;
  - the graphics-library initialisation result;
  - a function giving the bytes of the rendered colour attachment for each camera;
  - a function saying whether the user closes the window while the `p`-th frame is presented.
- A run's observable effects form an ordered log of events: the window opened, a render, a
  read-back request, an image write carrying the buffer's contents.
- The counts that the calibration readers return are taken to be the lengths of the lists
  they fill.
- The out-of-range vector access that the program performs when the two counts differ is
  undefined behaviour in the source. The model stops there with the outcome
  `IndexOutOfRange(camIdx)`, which makes the access visible.

Where the code and the design description of the system disagree, the model follows the code:

- `main` always exits with status 0. The `throw` comes before `return -1`, and the catch-all
  handler falls off the end of `main`. So a missing calibration or a failed context is only an
  `Aborted` outcome with a message, and exit codes are not modelled.
- Zero cameras abort the run with the empty-calibration message. The run does not complete
  with zero images.
- The loop bound is the larger of the two counts, not the length of one list of pairs.
- The shader writes the normalised depth into all three channels. The code has no
  two-byte red/green encoding and no host-side decoding, so neither is modelled.
- Nothing checks that a camera's own resolution equals the window's, and nothing validates
  the near/far pair.

## Model

| member | source | states |
|---|---|---|
| `Naming.OutputFileNameRoundTrip` | main.cpp:90-92 | the name built for index `i` parses back to exactly `i`: prefix `output/images/`, the digits of `i`, extension `.png` |
| `Naming.IndexFieldShape` | main.cpp:91-92 | the index field is all digits and denotes `i`; below 10000 it has exactly 4 characters; from 10000 on it is the unpadded decimal representation of `i` (a field width never truncates) |
| `Naming.OutputFileNameInjective` | main.cpp:90-93 | two different camera indices never give the same output file name |
| `Naming.OutputFileNameLength` | main.cpp:90-92 | for indices below 10000 the name has 14 + 4 + 4 = 22 characters |
| `Naming.ZeroPad` | main.cpp:91-92 | padding right-aligns: the result has the field width or the original length if longer, ends with the original text, and everything before it is `'0'` |
| `Naming.DecimalDigits` | main.cpp:92 | the decimal representation of an index is non-empty, all digits, without leading zero |
| `Naming.DecimalDigitsValue` | main.cpp:92 | reading the decimal representation back gives the index |
| `Naming.LeadingZerosValue` | main.cpp:91 | fill zeros in front of a digit string do not change the number it denotes |
| `Naming.DecimalLength` | main.cpp:92 | an index has at most `k` digits exactly when it is below 10^k |
| `Capture.AsWrittenBound` | main.cpp:81 | the program's loop bound is one of the two counts and is at least both |
| `Capture.CorrectedBound` | main.cpp:81-86 | the corrected bound is one of the two counts and is at most both, so both list accesses stay in range |
| `Capture.FramesCaptured` | main.cpp:80-99 | the index at which the loop stops is never below where it started; below the bound it advances at least once and never passes the bound; at or past the bound nothing more happens |
| `Capture.CaptureSession.constructor` | main.cpp:63-72 | the window size comes from the first intrinsic; the buffer is fresh, W * H * 3 bytes long and all zero; the index starts at 0 with the close flag clear |
| `Capture.CaptureSession.Render` | main.cpp:86-87 | the camera built from the pair at the index becomes what the colour attachment shows; one render event is logged |
| `Capture.CaptureSession.ScreenShot` | main.cpp:89 | the read-back requires a render to have happened and the `w * h * 3` bytes to fit the buffer; it overwrites the front of the buffer with the region of the last rendered image, keeps the rest, and logs the request |
| `Capture.CaptureSession.WriteImage` | main.cpp:138-142 | a null buffer writes nothing; otherwise one write of the buffer's current contents with the given size and name is logged |
| `Capture.CaptureSession.SetShouldClose` | main.cpp:81-84 | once the index reaches the bound, the loop raises the close flag and changes nothing else |
| `Capture.CaptureSession.Advance` | main.cpp:95 | the index grows by exactly one |
| `Capture.CaptureSession.PresentAndPoll` | main.cpp:97-98 | after presenting, the close flag is set if the user closed the window; once set it stays set |
| `Capture.CaptureSession.CaptureLoop` | main.cpp:78-99 | starting from index 0, the loop's log is exactly the first `k` iterations, where `k` is where `FramesCaptured` stops it; if the loop gets past the shorter list, it ends with `IndexOutOfRange` at that list's length |
| `Capture.RunCapture` | main.cpp:47-107 | a run equals the reference `ExpectedRun`; with an empty list the run aborts with the empty-calibration message and has no effect at all, not even opening the window |
| `Capture.CaptureAsWritten` | main.cpp:57-99 | the program as written behaves as `ExpectedRun` with the loop bound `max(nIntrinsic, nExtrinsic)` |
| `Capture.Capture` | main.cpp:81-86 | with the loop bounded by the smaller count, the run never indexes out of range, and it is identical to the program as written whenever the counts agree |
| `CaptureProperties.StopsAtBoundWithoutClose` | main.cpp:80-84 | without a user close the loop stops exactly at its bound |
| `CaptureProperties.StopsAtFirstClose` | main.cpp:80 | the first user close, while frame `q` is presented, stops the loop with exactly `q` frames |
| `CaptureProperties.PassesIndex` | main.cpp:80-86 | the loop gets past index `m` below its bound exactly when the user closes during none of the frames up to `m` |
| `CaptureProperties.TraceAt` | main.cpp:86-95 | iteration `i` emits exactly one render of camera `i`, one read-back of (0, 0, W, H) and one write, in that order; the write carries the window size and the region of the view rendered from camera `i` in that same iteration, not stale data |
| `CaptureProperties.TraceSlice` | main.cpp:86-95 | the events of iteration `i` are exactly positions 3i .. 3i + 2 of the trace |
| `CaptureProperties.TraceLength` | main.cpp:86-95 | `k` iterations emit exactly `3k` events |
| `CaptureProperties.WindowSizeEverywhere` | main.cpp:63-64 | every read-back requests (0, 0, W, H), and every write passes W, H and W * H * 3 bytes, where W and H are the first intrinsic's size, whatever camera is current |
| `CaptureProperties.TraceWrittenNames` | main.cpp:90-93 | the first `k` iterations write the names of indices 0 .. k - 1 in order |
| `CaptureProperties.ExpectedNamesDistinct` | main.cpp:90-93 | no two images of a run share a file name |
| `CaptureProperties.WrittenNamesArePrefix` | main.cpp:80-95 | whatever the user does, the written names are a prefix of the full ordered name sequence, of at most `bound` names |
| `CaptureProperties.FullRunWritesEveryImage` | main.cpp:78-99 | with equal counts and no user close, the program completes and writes exactly one image per camera, in camera order |
| `CaptureProperties.EarlyCloseWritesPrefix` | main.cpp:80-98 | a first user close during frame `q` ends the run after exactly the first `q` names |
| `CaptureProperties.AsWrittenOverrunsIff` | main.cpp:81-86 | the program as written indexes a calibration list out of range exactly when the counts differ, both are non-zero, the context exists, and the user does not close before the shorter length |
| `CaptureProperties.AsWrittenOverrunExample` | main.cpp:81-86 | with two intrinsics, one extrinsic and no user close, the program reaches index 1 and reads `extrinsics[1]` |
| `CaptureProperties.CorrectedWritesEveryPair` | main.cpp:81-86 | with the corrected bound and no user close, every calibration pair is captured in order |

## Left out

- Window and context creation (GLFW hints, window creation, GLEW initialisation, disabling
  multisampling), buffer swapping and event polling: these are graphics-driver calls. The
  initialisation result is an input of the run: its error message, or none. The poll is
  reduced to whether the user closed the window.
- `PrepareOutputDir`: shell calls that remove and create directories.
- The inside of `WriteImage`: the colour conversion, vertical flip and file encoding belong
  to the image library. Only the null check and the write event are kept.
- The console prompts and the reads of the file names and near/far values: interactive I/O.
- Mesh loading, the calibration readers, `Renderer` and `Camera`: their code is not part of
  this model. Mesh loading and the calibration readers can throw, and those paths are not
  modelled. Rendering only records which camera the colour attachment shows.
- The pixel layout of the read-back: it is done by `Renderer`, which is not part of this
  model. The model assumes the usual 3-bytes-per-pixel, row-by-row packing and does not model
  row alignment.
- The depth fragment shader (`shader/depth_frag.h`): it does floating-point depth
  linearisation and normalisation, and its label packing is commented out.
- The catch-all handler's console message: an exception becomes the outcome `Aborted`.
- Releasing the buffer at the end of the run.
- `Capture.CaptureSession.constructor`: the buffer size W * H * 3 uses unbounded integers.
  The 32-bit `int` product in the source, which overflows for very large windows, is not
  modelled.
- `Capture.CaptureAsWritten`: the model stops at the first out-of-range list access, with the
  outcome `IndexOutOfRange`. The undefined behaviour after that point is not modelled.

## Findings

| source | as written | input that shows it | evidently intended | confidence | as-written member | corrected member |
|---|---|---|---|---|---|---|
| main.cpp:81-86 | the loop runs while `camIdx < max(nIntrinsic, nExtrinsic)` but reads both `extrinsics[camIdx]` and `intrinsics[camIdx]` | two intrinsics, one extrinsic, no user close: iteration 1 reads `extrinsics[1]`, past the end of a one-element vector | bound the loop by the smaller count so that every camera is a complete intrinsic/extrinsic pair | not executed | `CaptureProperties.AsWrittenOverrunExample` | `Capture.Capture` |
