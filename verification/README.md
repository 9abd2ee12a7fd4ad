# SEM_Scan control core in Dafny

SEM_Scan drives a scanning electron microscope through the Autoscript client. It has two parts: a `Microscope` gateway (`SEM.py`) and a Qt main window (`main.py`). This project models the control logic beneath the Qt glue and the SDK calls, and proves properties of that model:

- **Settings resolver** (`update_image_settings`), module `Settings`. It merges keyword overrides with `all_settings["imaging"]` field by field, in the source's order.
  - A truthy override wins. Otherwise the dictionary is read, and the first missing key raises `KeyError`.
  - The beam type is `ELECTRON` unless a `beam_type` argument is passed. The dictionary's `beam_type` key is looked up, but its value is never used.
- **Device rules**, module `Rules`, as pure functions:
  - the pixel-to-spot conversion of `set_beam_point`;
  - the field-width choice and cap of `acquire_image`;
  - the frame-integration floor;
  - the demo image shape;
  - the scan-rotation wrap at the limits, with Python's float `%`;
  - the effect of the state capture (including its fallback) and of the restore.
- **The gateway**, class `Scope.Microscope`. The instrument is a `Hardware` record. Whether an attribute of the client can be read or written is an oracle: an `online` flag plus a set of faulting accesses. Each method updates the record and the stored `MicroscopeState` step by step, as the source does, and is proved against the functions of `Rules` and `Settings`.
- **The stack sequencer**, module `Stack`: `collect_stack`'s inner `_run_loop` as a function of its inputs.
  - The inputs are a list of `(hfw, enabled, magnification)` steps, plus the captured states, frame counts, abort clicks, clock readings and `str(hfw)`.
  - The counter advances only on enabled steps.
  - File names follow the `'%06d_'` pattern.
  - One log row is written per saved file.
  - The abort flag is checked after every step and cleared when found set.
- **The window**, module `Gui`:
  - `create_settings_dict` as a function of the widgets;
  - the field-width override of `acquire_image(hfw)`;
  - class `Gui.MainWindow`, whose methods update the buttons, the abort flag, the cached dictionary, the saved files and `experiment_data`. `AbortClicked` sets the flag; `RunLoop` and `CollectStack` are proved to leave the window showing `Stack.Run`.

Lengths, times and angles are `real`. The `%06d` counter, `str(int)`, `int()` and the "WxH" resolution text are written out on strings (module `Text`).

## Model

| member | source | states |
|---|---|---|
| Settings.ResolveField | SEM.py:454-507 | one field resolves exactly when a truthy override is given or the key is in the `imaging` section; the value is the override, else the dictionary entry; otherwise KeyError of the section, then of the key |
| Settings.Resolve | SEM.py:425-523 | Ok exactly when every field is available; each field but the beam is the override or the dictionary entry; the beam is ELECTRON unless a `beam_type` other than None is passed (a falsy one is kept); on failure the KeyError of the first unavailable field in the source's order |
| Settings.WalkCompletes | SEM.py:454-507 | the field-by-field walk completes exactly when every visited field is available, and then every visited field is assigned |
| Settings.WalkAssigns | SEM.py:454-507 | every value the walk assigns belongs to a visited field and is the one the override rule picks |
| Settings.WalkStops | SEM.py:454-507 | a failed walk reports the KeyError of the first unavailable field, after assigning every field before it |
| Settings.FailureSticks | SEM.py:454-507 | once a field raised, later fields change nothing |
| Settings.FalsyOverrideFallsBack | SEM.py:454-507 | a falsy override (False, 0, 0.0, "") does not win: the dictionary entry is used and must exist |
| Settings.BeamTypeKeyRequired | SEM.py:474-477 | without a truthy `beam_type` argument, a section lacking the `beam_type` key makes the call fail |
| Settings.BeamTypeValueIgnored | SEM.py:474-515 | changing the dictionary's `beam_type` value never changes the result, which is ELECTRON when no `beam_type` argument, or None, is passed |
| Settings.NoSectionNeedsAllOverrides | SEM.py:454-507 | with no `imaging` section the call succeeds exactly when every override is truthy, and otherwise raises KeyError("imaging") |
| Scope.Microscope.UpdateImageSettings | SEM.py:425-523 | the method returns `Resolve`; the attribute cache gains exactly the fields assigned before the first failure; the stored settings change only on success |
| Rules.ClampPixel | SEM.py:100-101 | the clamped coordinate is at most the dimension and at most the input, equals the input when that is within the dimension, and equals the dimension when the input is above it |
| Rules.BeamSpot | SEM.py:96-104 | the spot is the clamped coordinate divided by the dimension; a zero dimension raises ZeroDivisionError |
| Rules.SpotInUnitSquare | SEM.py:100-103 | non-negative pixels and a positive resolution give a spot in the unit square |
| Rules.SpotBeyondEdge | SEM.py:100-103 | a pixel beyond the width lands on the edge 1.0 |
| Rules.NegativeSpotNotClamped | SEM.py:100-103 | negative pixels are not clamped and give a negative spot |
| Scope.Microscope.SetBeamPoint | SEM.py:78-106 | demo mode changes nothing; live, the resolution is read and parsed, and the spot written is `BeamSpot` of the clamped position; a failed read, parse, division or write leaves the instrument unchanged |
| Rules.EffectiveHfw | SEM.py:171-178 | the width written is the argument when given, else the settings' value, capped at the maximum and never above it |
| Rules.EffectiveHfwKeepsAdmissible | SEM.py:171-178 | only the upper limit is enforced; an admissible argument is kept, and capping twice changes nothing |
| Rules.NormaliseFrames | SEM.py:183-184 | a non-positive frame integration becomes 1, a positive one is kept, a non-number raises TypeError |
| Rules.FramesAtLeastOne | SEM.py:183-184 | on integers the result is `max(n, 1)`, and a second pass changes nothing |
| Rules.DemoShapeOfResolution | SEM.py:199-205 | a "WxH" resolution gives a demo image of H rows of W pixels |
| Rules.DemoShape768x512 | SEM.py:199-205 | the demo image for "768x512" has shape (512, 768) |
| Text.ResolutionRoundTrip | SEM.py:203 | splitting "WxH" at `x` and converting both parts gives back W and H |
| Rules.PrepareGrab | SEM.py:168-184 | the steps before the grab succeed exactly when the view and the field width can be written, the limit read, a field width is numeric, auto contrast (when asked) can run and the frame count is numeric. Then the instrument differs only in view, capped field width and one more auto-contrast run when asked, and the settings take the normalised frame count. The instrument differs from before only in those three fields, on every path |
| Rules.SelectAndWidth | SEM.py:168-178 | the view and the field width are written exactly when those accesses succeed and a field width is numeric; a non-numeric settings width with no argument raises TypeError after the view is selected |
| Rules.ContrastAndFrames | SEM.py:180-184 | auto contrast runs once exactly when the settings ask and it can; the step fails exactly when that run fails or the frame count is not numeric |
| Rules.GrabFrameSettings | SEM.py:186-190 | the grab settings build exactly when the drift-correction keyword is the declared one, carrying the settings' resolution, dwell time, bit depth, drift correction and frame count; any other keyword raises TypeError |
| Scope.Microscope.SetFieldWidth | SEM.py:168-178 | the instrument and the outcome are `SelectAndWidth` of the instrument before |
| Scope.Microscope.ContrastAndFramesLive | SEM.py:180-184 | the instrument and the outcome are `ContrastAndFrames` of the instrument before |
| Scope.Microscope.PrepareLive | SEM.py:168-184 | the instrument and the outcome are `PrepareGrab`; the stored settings take the normalised frame count, because they are the object `acquire_image` changes |
| Scope.Microscope.AcquireDemo | SEM.py:196-207 | without settings a 768x512 image; with settings, the resolver's error, or the shape `DemoShape` gives. The stored settings and the attribute cache are updated as `update_image_settings` says |
| Scope.Microscope.AcquireImage | SEM.py:151-207 | as written. Demo leaves the instrument unchanged and returns `AcquireDemo`'s image. Live with settings:<br>• a resolver error is returned and nothing changes;<br>• otherwise the instrument becomes `PrepareGrab`'s and the error of those steps is returned;<br>• when they succeed, the result is TypeError from the misspelt keyword and no grab is made.<br>The attribute cache and stored settings are as `update_image_settings` and the frame normalisation leave them. Without settings, a default grab |
| Scope.Microscope.AcquireImageCorrected | SEM.py:151-207 | the same effects as `AcquireImage`, but after the steps succeed the grab is made. It carries the settings' resolution, dwell time, bit depth, drift correction and normalised frame count, and it fails only when the grab raises |
| Scope.Microscope.LastImage | SEM.py:210-233 | live, it selects the view and returns that view's last frame; demo, a 512x768 simulated image |
| Scope.Microscope.Autocontrast | SEM.py:64-75 | live, it selects the view and runs one auto-contrast pass; a failed view write changes nothing, and a failed run leaves the view selected; demo changes nothing; nothing else changes |
| Scope.Microscope.BeamBlank | SEM.py:116-129 | live, it flips the blanking and returns the new state; demo returns the demo reply and changes nothing |
| Scope.Microscope.Blank | SEM.py:132-139 | live, it blanks the beam and reports true; demo changes nothing |
| Scope.Microscope.Unblank | SEM.py:141-148 | live, it unblanks the beam and reports false; demo changes nothing |
| Rules.Mod2Pi | SEM.py:283 | Python's float `x % (2*pi)`: the result lies in [0, 2π) and differs from x by a whole number of turns |
| Rules.Mod2PiFixesRange | SEM.py:283-285 | angles in [0, 2π) are their own remainder |
| Rules.WrapRotation | SEM.py:282-296 | a target strictly inside the limits is written unchanged; one at or beyond a limit is written as its remainder modulo 2π, in [0, 2π) |
| Rules.WrapWithinTwoPi | SEM.py:272-285 | for limits inside [-2π, 2π] the written angle lies in (-2π, 2π) |
| Rules.WrapIdempotent | SEM.py:293-296 | wrapping a written angle again gives the same angle |
| Rules.ScanRotation | SEM.py:267-307 | it goes on exactly when the limits can be read and, for Relative, the angle read and written, or for Absolute written. Relative writes `WrapRotation` of the current angle plus the argument and returns the argument on an exception. Absolute writes `WrapRotation` of the argument and returns that wrapped angle on a failed write. An unknown mode writes nothing. Unreadable limits return the argument, and only the rotation changes |
| Rules.ScanRotationInRange | SEM.py:282-300 | a written angle is strictly inside the limits or in [0, 2π); an unknown mode writes nothing |
| Rules.RelativeZeroKeepsAngle | SEM.py:277-289 | a relative turn by zero from an angle inside the limits writes the same angle back |
| Rules.AbsoluteIdempotent | SEM.py:291-300 | setting, as an absolute angle, the angle an absolute set wrote reproduces the same outcome |
| Scope.Microscope.WriteRotation | SEM.py:267-300 | the limits are read, the target computed and written, as `ScanRotation` says; a raising access leaves the instrument unchanged and gives the value returned |
| Scope.Microscope.SetScanRotation | SEM.py:258-307 | on an exception, the local angle is returned and nothing changes; otherwise the instrument is `ScanRotation`'s, the state is captured with the stage position read beforehand (a random position in the source's bounds when the stage cannot be read), and the final rotation read is returned (or the local angle if that read raises) |
| Rules.CaptureSucceeds | SEM.py:357-381 | when every read succeeds the captured state is the instrument's full snapshot |
| Rules.CaptureFailure | SEM.py:383-390 | if the first unreadable attribute is at position i of the read order, the position is (2, 1, 0, 0, 0) and the rotation 0. Every other attribute read before position i holds the instrument's value, and every attribute from i on keeps its previous value |
| Rules.CaptureReadsStops | SEM.py:357-390 | the reads stop at the first unreadable attribute: the reads before it are made, then the fallback is written |
| Rules.ReadAllReading | SEM.py:366-381 | after a sequence of successful reads, each attribute among them reads as on the instrument, and any other as before |
| Rules.FailedBrightnessKeepsContrast | SEM.py:371-390 | an instance of `CaptureFailure`: when brightness is the first unreadable attribute, the capture is the snapshot with the fallback position and rotation, and with brightness, contrast and beam shift as before |
| Rules.OfflineCapture | SEM.py:357-390 | with nothing readable the capture only writes the fallback over the previous state |
| Scope.Microscope.UpdateStagePosition | SEM.py:236-254 | the stage position is read into the state, or on failure a random position in [0, 1e-3)³ × [0, 1)² |
| Scope.Microscope.CaptureState | SEM.py:347-392 | the stored state becomes `Capture` of the previous state, the stage position and the readable attributes, and is returned |
| Scope.Microscope.SetBeamShift | SEM.py:310-326 | a failed write changes nothing; otherwise the shift is written and the state captured, its position being the stage read (or a random position in the source's bounds when the stage cannot be read) |
| Scope.Microscope.ResetBeamShifts | SEM.py:329-344 | the shift becomes (0, 0) when it can be read and written; the state is captured either way, its position being the stage read (or a random position in the source's bounds when the stage cannot be read) |
| Rules.RestoreKeepsStage | SEM.py:405-422 | the restore never moves the stage, whichever writes fail |
| Rules.RestoreThenCapture | SEM.py:412-420 | with every write allowed, the corrected restore writes back the six attributes, and a full snapshot afterwards equals the stored state apart from the position and the three attributes the restore does not write |
| Rules.WrittenKeywordRaises | SEM.py:186-190 | with the keyword as written (`drift_correctiion`), the grab settings raise TypeError whatever the settings |
| Rules.RestoreAsWrittenLosesBrightness | SEM.py:417 | as written, the restore never brings back a different brightness, even when every write would succeed |
| Scope.Microscope.RestoreStateAsWritten | SEM.py:395-422 | the instrument becomes `RestoreAsWritten`: field width, resolution and rotation in order, stopping at the first failing write |
| Scope.Microscope.RestoreState | SEM.py:395-422 | the instrument becomes `Restore`; the stage is untouched; with every write allowed the six attributes equal the stored state |
| Text.Pad06Digits | main.py:344 | `%06d` of n has at least six digits, and reads back as n |
| Stack.FileNameCounter | main.py:344-345 | the text before a file name's first underscore is the zero-padded counter, and it parses back to the counter |
| Stack.FileNamesDiffer | main.py:344-345 | files with different counters have different names |
| Stack.FrameNamesDiffer | main.py:368-369 | within one step, different frame numbers give different names |
| Stack.FrameNames | main.py:367-369 | frame `ii` of a multi-frame step is named with `str(ii) + '_'` before the timestamp |
| Stack.FrameRows | main.py:367-377 | one row per frame, naming that frame, each with a clock reading of its own |
| Stack.AcquisitionsCounter | main.py:335-379 | the counter advances once per enabled step; the hardware is given each enabled step's width times 1e-6, in order |
| Stack.AcquisitionsExecuted | main.py:329 | every step of the list is visited when nothing aborts |
| Stack.RunStops | main.py:327-387 | the loop runs the steps up to and including the first after which the flag is found set. The log is exactly what those steps produce. The loop stops exactly then, runs every step otherwise, and leaves the flag cleared |
| Stack.RunStopsHere | main.py:384-387 | once the loop has returned, later steps change nothing |
| Stack.SingleModeCounts | main.py:340-357 | single quadrant: one file and one row per enabled step, two clock readings each |
| Stack.SingleModeFiles | main.py:340-357 | single quadrant: the j-th enabled step's file carries counter j, its field width and its clock reading, whatever disabled steps lie between, and its row names that file |
| Stack.SingleModeCounter | main.py:344-345 | single quadrant: the j-th file of a run starts with counter j |
| Stack.SingleModeNamesDistinct | main.py:340-357 | single quadrant: no file of a run overwrites another file of the run |
| Stack.DualModeFiles | main.py:360-377 | both quadrants: one file and one row per returned frame, rows in file order |
| Stack.ExampleRun | main.py:327-387 | without aborts, the list (100, on), (50, off), (25, on) saves two files with counters 0 and 1 in single mode, and four files with two frames a step in dual mode |
| Gui.BeamChoice | main.py:85-91 | "ION" selects the ion beam; every other text selects the electron beam |
| Gui.SettingsDict | main.py:80-120 | fails with ValueError exactly when the quadrant or bit-depth text is not an integer; otherwise the dictionary has the single `imaging` section |
| Gui.GuiSettingsResolve | main.py:80-120 | the dictionary always resolves to the widgets' values: dwell time and width times 1e-6, the integers as parsed, the beam ELECTRON |
| Gui.GuiBeamChoiceIgnored | main.py:85-91 | choosing "ION" changes the dictionary but not the settings resolved from it |
| Gui.WithHfw | main.py:135-136 | without an argument the dictionary is unchanged; with one, it fails exactly when there is no `imaging` section |
| Gui.HfwOverrideResolves | main.py:132-140 | the override reaches the resolved settings and changes no other field |
| Gui.LoopOverrideIsIdle | main.py:342-348 | in the stack loop the override writes back the value the dictionary already holds |
| Gui.MainWindow.CreateSettingsDict | main.py:80-120 | returns `SettingsDict` of the widgets and caches it on success |
| Gui.MainWindow.AcquireSettings | main.py:132-136 | the dictionary handed to the microscope is the widgets' dictionary with the override applied, and it is what is cached |
| Gui.MainWindow.AbortClicked | main.py:401-404 | the abort button is disabled and the flag set |
| Gui.MainWindow.BeginStep | main.py:337-348 | the clock is read and the spin box set, and the hardware is given the width times 1e-6, as `Stack.Begin` says; the cached dictionary stays the widgets' |
| Gui.MainWindow.SaveFrame | main.py:350-357 | one file saved and one row appended, with the next clock reading |
| Gui.MainWindow.SaveFrames | main.py:367-377 | the loop over the returned frames saves their names in order and appends their rows, as `Stack.FrameRows` says |
| Gui.MainWindow.SaveStep | main.py:340-377 | one enabled step's files and rows are saved as `Stack.Acquire` says, in both modes |
| Gui.MainWindow.AcquireStep | main.py:335-379 | the window after an enabled step shows `Stack.Acquire` of the log |
| Gui.MainWindow.RunStep | main.py:329-387 | one pass of the loop, with its abort check, is `Stack.StepOnce` |
| Gui.MainWindow.RunLoop | main.py:327-387 | the loop leaves the window showing `Stack.Run` of the steps, and the abort flag as the run leaves it |
| Gui.MainWindow.StartRun | main.py:288-324 | a dictionary that does not build changes nothing; otherwise it is cached, the clock is read once, acquire and collect are disabled, abort is enabled, and the log is cleared |
| Gui.MainWindow.FinishRun | main.py:389-398 | acquire and collect are enabled again, abort is disabled, and the log is saved as the summary |
| Gui.MainWindow.CollectStack | main.py:281-398 | an unparsable quadrant or bit depth raises ValueError and changes nothing. Otherwise the window ends showing `Stack.Run` of the steps from a fresh log, the buttons restored, and the log appended to the summaries |

## Left out

- Qt widgets, display, file dialogs, CLAHE and image files: the window's widgets are a record, and `save_image` appends a name to a list.
- Establishing and closing the connection, and every other Autoscript call: the instrument is the `Hardware` record, and an access that raises is an oracle. The oracle is a fixed set of faults, constant over time.
- `set_full_frame` and the pixel data of images; `np.random` pixels are not modelled.
- The random fallback position of `update_stage_position` is modelled only by its bounds (`RandomPosition`).
- `_get_all_the_HFW_to_use` builds the step list by reflection; the list is an input.
- `str(hfw)` of a float is an abstract `show` function; `utils.current_timestamp` is an abstract clock indexed by the number of readings.
- `acquire_multiple_frames` of the microscope is not part of this model: its frame count per step is an input.
- Exceptions raised by the acquisitions inside the stack loop are not modelled: every enabled step is taken to acquire.
- Stack.Env: the q1 and q2 checkboxes and the sample name are read once when the run starts. The source reads the checkboxes again at each step.
- Stack.Env: the state captured at the start of each step is an input (`states`). The capture itself is modelled by `Scope.Microscope.CaptureState`.
- The stored microscope state is captured at the start of `collect_stack` and never restored; the source has the restore commented out. The choice of the stack directory is not modelled.
- Scope.Microscope.RestoreStateAsWritten: `scanning.resolution = state.resolution` replaces the client attribute rather than its value. It is modelled as a write of the resolution.
- IEEE floating point: reals are used throughout, and π is the literal 3.141592653589793 (`Rules.Pi`), which stands for `np.pi`.
- A failed state capture keeps the fields read before the failing read. It changes only the position and the rotation to fixed values, and leaves the remaining fields as they were. It does not return a wholly fixed state.
- Hardware errors inside `acquire_image` are not caught there; they propagate to the caller.
- Scope.Microscope.AcquireImage: `GrabFrameSettings` belongs to the SDK and is not part of this model. It is taken to declare its parameters by name, so an unknown keyword raises TypeError. If it accepted arbitrary keywords, the misspelt argument would be dropped silently, and the grab would be made without a drift correction.
- Text.ParseInt: Python's `int()` also accepts surrounding whitespace and `_` between digits. The model accepts an optional sign followed by ASCII digits only, so texts like " 2" or "1_0" are treated as ValueError.
- Gui.LoopOverrideIsIdle: the field-width spin box is taken to hold exactly the value `setValue(hfw)` gives it. A spin box that rounds to its precision or clamps to its range would make the dictionary's width differ from the step's width. The `Cached` invariant of `Gui.MainWindow` rests on the same assumption.

## Findings

| source | as written | input that shows it | evidently intended | confidence | as-written member | corrected member |
|---|---|---|---|---|---|---|
| SEM.py:417 | `_restore_microscope_state` reads `state.brighness`. No state has that attribute, so the read raises `AttributeError`. The bare `except` swallows it, so brightness, contrast and beam shift are never restored | any stored state whose brightness differs from the instrument's, with every write allowed | `state.brightness`, so that all six attributes are written back | not executed; high (the attribute is never assigned anywhere) | Rules.RestoreAsWrittenLosesBrightness | Rules.RestoreThenCapture |
| SEM.py:189 | `acquire_image` builds `GrabFrameSettings` with the keyword `drift_correctiion`. A constructor with named parameters rejects it with TypeError, after the view, field width, auto contrast and frame count have been set. So no live acquisition with settings returns an image | any live `acquire_image(all_settings)` whose settings resolve and whose accesses succeed | `drift_correction=settings.drift_correction` | not executed; medium (it depends on the signature of `GrabFrameSettings`, which is not part of this model) | Scope.Microscope.AcquireImage | Scope.Microscope.AcquireImageCorrected |
