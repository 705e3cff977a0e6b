# pibooth camera layer: backend selection and the Picamera2 driver

This project models two parts of pibooth's camera layer and proves
properties of the model.

- **Backend selection.** `find_camera` and `close_proxy` live in
  `pibooth/camera/__init__.py`. Module `CameraSelector` (selector.dfy) models
  them as pure functions.
  - The four probes are a function from camera family to an optional proxy
    handle.
  - Selection yields an `Outcome`: the ordered log of what the selection does
    (four `Probe` events, then `Quit(class, handle)` events for released
    proxies), plus either the returned `Driver` or an error.
  - The error is "no camera" (the `EnvironmentError`) or a wrong argument
    count (the `TypeError` Python raises when `close_proxy` gets other than
    four arguments).
- **The Picamera2 driver.** `RpiCamera2` and `get_rpi_camera_2_proxy` live in
  `pibooth/camera/rpi2.py`.
  - Module `Rpi2Model` (rpi2_model.dfy) holds the value-level parts:
    - the effect names and their normalisation;
    - the sensor configuration;
    - the exposure bracket around a capture;
    - the two image pipelines (an image records the crop ratio, the target
      size, the mirroring, the pasted overlay and the filter, and `Steps`
      lists those operations in pipeline order);
    - the countdown's overlay cache, as the sequence of loop states `Ticks`;
    - the proxy probe.
  - Module `Rpi2Driver` (rpi2_driver.dfy) holds the objects that change in
    place:
    - class `Device` is the Picamera2 device, reduced to the log of calls it
      receives and a count of delivered frames;
    - class `Window` is the preview window, reduced to the list of images
      shown on it;
    - class `RpiCamera2` has the driver's mutable fields (`_window`,
      `preview_flip`, `_overlay`, `_overlay_alpha`, `_captures`) and one
      method per driver operation.
  - The preview loops are `while` loops over a sequence of timer readings.
    Each reading is the `int(remaining() + 1)` value the loop computes on that
    iteration. The number of readings is the number of iterations before the
    timer reports a timeout.
- wrappers.dfy holds `Option` and `Result`.

The evident intent of `find_camera` is that every probe combination with a
camera yields exactly one driver, and that every branch releases, through
its own driver class, each probed proxy it does not keep. Four of its six
branches do exactly that. Two do not:

- The Picamera2 branch raises a `TypeError` and returns no driver.
- The gPhoto2-only branch releases a Picamera2 proxy through the OpenCV
  driver class.

The model reproduces both as written, and models the repaired selection
beside them (`FindCameraCorrected`). See "Findings".

## Model

| member | source | states |
|---|---|---|
| CameraSelector.QuitIf | pibooth/camera/__init__.py:14-21 | one guarded quit: at most one event, and none exactly when the proxy is absent |
| CameraSelector.ReleasedByQuitIf | pibooth/camera/__init__.py:14-21 | one guarded quit releases exactly the proxy it is given, if present |
| CameraSelector.CloseProxy | pibooth/camera/__init__.py:11-21 | close_proxy fails with the argument-count error exactly when it is not given four arguments, and then quits nothing |
| CameraSelector.CloseProxyQuitsPresentArgumentsInOrder | pibooth/camera/__init__.py:11-21 | with four arguments, every quit is of a present argument through the driver class of that argument's position; every present argument is quit; the quits follow position order (rpi, rpi2, gp, cv) |
| CameraSelector.FindCamera | pibooth/camera/__init__.py:30-33 | the four probes run first, unconditionally, in the order Picamera, Picamera2, gPhoto2, OpenCV |
| CameraSelector.ProbesThenQuitsThenDriver | pibooth/camera/__init__.py:35-58 | after the probes, find_camera only quits proxies; a returned driver holds exactly the proxies that its families' probes produced |
| CameraSelector.FirstMatchingRuleWins | pibooth/camera/__init__.py:35-60 | the branch taken is the first rule present in the priority order rpi+gp, cv+gp, gp, rpi, rpi2, cv; the rpi2 rule yields the argument-count error; "no camera" is raised exactly when no rule applies |
| CameraSelector.NoCameraIffAllProbesAbsent | pibooth/camera/__init__.py:60 | "no camera" is raised if and only if all four probes came back empty |
| CameraSelector.HybridBranches | pibooth/camera/__init__.py:35-42 | rpi+gp returns HybridRpi(rpi, gp) and quits only rpi2 and cv; cv+gp without rpi returns HybridCv(cv, gp) and quits only rpi2 (rpi is absent there) |
| CameraSelector.HybridRpiAccounts | pibooth/camera/__init__.py:35-38 | in the Picamera+gPhoto2 branch, kept and released proxies together are exactly the probed proxies, as multisets |
| CameraSelector.HybridCvAccounts | pibooth/camera/__init__.py:39-42 | the same for the OpenCV+gPhoto2 branch |
| CameraSelector.GpAccounts | pibooth/camera/__init__.py:43-46 | the same for the gPhoto2-only branch |
| CameraSelector.RpiAccounts | pibooth/camera/__init__.py:47-50 | the same for the Picamera branch |
| CameraSelector.CvAccounts | pibooth/camera/__init__.py:55-58 | the same for the OpenCV branch |
| CameraSelector.EveryProbedProxyKeptOrReleased | pibooth/camera/__init__.py:35-58 | in every branch that returns, each probed proxy is kept by the driver or quit, and none is both kept and quit or quit twice (multiset equality) |
| CameraSelector.KeptProxyIsNeverReleased | pibooth/camera/__init__.py:35-58 | when the probes return distinct objects, no proxy handed to the returned driver is also passed to close_proxy in the same branch |
| CameraSelector.GPhoto2BranchReleasesPicamera2AsOpenCV | pibooth/camera/__init__.py:43-46 | taking every driver class's constructor and quit() to return normally: the gPhoto2-only branch returns Gp(gp); a present Picamera2 proxy is quit through the OpenCV class and never through its own; nothing is quit through the gPhoto2 class |
| CameraSelector.Picamera2BranchRaisesArgumentError | pibooth/camera/__init__.py:51-54 | when Picamera2 is the first family present, find_camera ends with the argument-count error after the four probes; no proxy is released and no driver is returned |
| CameraSelector.FindCameraCorrected | pibooth/camera/__init__.py:24-60 | the selection with the argument lists of lines 45 and 53 repaired; the probes still run first, in probe order |
| CameraSelector.CorrectedSelectionReleasesThroughOwnClass | pibooth/camera/__init__.py:35-60 | with the repaired argument lists, a driver is returned exactly when some probe found a camera, and every quit goes through the driver class of the family that produced the proxy |
| CameraSelector.CorrectedSelectionFollowsPriority | pibooth/camera/__init__.py:35-60 | with the repaired argument lists, "no camera" is raised exactly when no rule applies, and otherwise the returned driver is the one of the first rule present in the priority order, the Picamera2 rule included |
| CameraSelector.CorrectedHybridRpiAccounts | pibooth/camera/__init__.py:35-38 | in the repaired selection's Picamera+gPhoto2 branch, kept and released proxies together are exactly the probed proxies, as multisets |
| CameraSelector.CorrectedHybridCvAccounts | pibooth/camera/__init__.py:39-42 | the same for the repaired OpenCV+gPhoto2 branch |
| CameraSelector.CorrectedGpAccounts | pibooth/camera/__init__.py:43-46 | the same for the repaired gPhoto2-only branch |
| CameraSelector.CorrectedRpiAccounts | pibooth/camera/__init__.py:47-50 | the same for the repaired Picamera branch |
| CameraSelector.CorrectedRpi2Accounts | pibooth/camera/__init__.py:51-54 | the same for the repaired Picamera2 branch |
| CameraSelector.CorrectedCvAccounts | pibooth/camera/__init__.py:55-58 | the same for the repaired OpenCV branch |
| CameraSelector.CorrectedSelectionKeepsOrReleasesEveryProxy | pibooth/camera/__init__.py:35-58 | with the repaired argument lists, in every branch that returns (now any probe combination with a camera), each probed proxy is kept by the driver or quit, and none is both or quit twice (multiset equality) |
| Rpi2Model.GetRpiCamera2Proxy | pibooth/camera/rpi2.py:19-33 | there is no proxy unless both libraries imported; construction success gives the proxy; OSError gives no proxy; any other exception propagates unchanged |
| Rpi2Model.Normalize | pibooth/camera/rpi2.py:176 | the stored effect name has no upper-case letter and differs from the given name ("None" when absent) only in the case of its letters, so it is exactly its lower-case form; an already lower-case name is kept as given |
| Rpi2Model.NormalizeIgnoresCase | pibooth/camera/rpi2.py:176-177 | two effect names that differ only in letter case normalise to the same name, so they are accepted or refused together |
| Rpi2Model.NormalizeIsCanonical | pibooth/camera/rpi2.py:176 | a normalised effect name has no upper-case letter, and normalising it again changes nothing |
| Rpi2Model.NormalizeExamples | pibooth/camera/rpi2.py:41-51 | capture(None) stores "none" and capture("BLUR") stores "blur"; both names are in IMAGE_EFFECTS |
| Rpi2Model.SensorConfigFor | pibooth/camera/rpi2.py:60-62 | the main stream is the resolution turned landscape (the same two numbers, width at least height); the exposure time is preview_iso*1000; hflip follows preview_flip, with no vflip and the preview rotation |
| Rpi2Model.ExposureBracket | pibooth/camera/rpi2.py:180-188 | a capture grabs exactly one frame; the exposure is touched iff capture_iso differs from preview_iso, and then it is set to capture_iso*1000 first and back to preview_iso*1000 last |
| Rpi2Model.InitializationSetsPreviewExposure | pibooth/camera/rpi2.py:57-65 | after initialisation the sensor runs at the preview exposure |
| Rpi2Model.CaptureRunsAtCaptureExposure | pibooth/camera/rpi2.py:180-188 | the capture's device calls hold exactly one frame grab; the grab happens at capture_iso*1000; afterwards the sensor is back at preview_iso*1000, whether or not the two ISO values differ |
| Rpi2Model.PreviewImage | pibooth/camera/rpi2.py:78-93 | a preview image is built from the grabbed frame by exactly these steps: crop to the resolution's ratio, resize to the preview rectangle, mirror iff preview_flip, paste the overlay iff there is one |
| Rpi2Model.PostProcessCapture | pibooth/camera/rpi2.py:101-113 | a capture is post-processed from its frame by exactly these steps: crop to the resolution's ratio, resize to the resolution, mirror iff capture_flip, filter by the effect's upper-case name iff the effect is not "none" |
| Rpi2Model.PreviewPipeline | pibooth/camera/rpi2.py:75-93 | a preview image is the new frame: cropped to the resolution's ratio, then resized to the preview rectangle, mirrored iff preview_flip, with the current overlay pasted last iff there is one; no filter |
| Rpi2Model.PostProcessPipeline | pibooth/camera/rpi2.py:95-117 | a post-processed capture is cropped to the resolution's ratio, then resized to the resolution, mirrored iff capture_flip, and filtered last by the effect's upper-case name iff the effect is not "none"; no overlay |
| Rpi2Model.Rebuild | pibooth/camera/rpi2.py:137-140 | after one countdown step the recorded number is the reading and an overlay is set; the state changes iff there was no overlay or the reading differs from the recorded number, and a change installs the overlay built for the reading |
| Rpi2Model.Ticks | pibooth/camera/rpi2.py:135-141 | the countdown loop leaves exactly one state per timer reading |
| Rpi2Model.TicksAt | pibooth/camera/rpi2.py:135-141 | countdown iteration k applies the rebuild rule to the state iteration k-1 left |
| Rpi2Model.CountdownOverlayTracksReading | pibooth/camera/rpi2.py:135-141 | after iteration k, the recorded number is the k-th reading and an overlay is set: either the one built for that reading, or the overlay already present at the start while every reading so far equalled the timeout |
| Rpi2Model.OverlayRebuiltOnlyOnChange | pibooth/camera/rpi2.py:137-140 | between consecutive iterations the overlay state changes exactly when the reading changes, and a changed reading is displayed at once |
| Rpi2Driver.Device.CaptureArray | pibooth/camera/rpi2.py:80 | each grab delivers the next frame and is logged |
| Rpi2Driver.RpiCamera2.constructor | pibooth/camera/rpi2.py:53-55 | the driver keeps the base class's state and sets the overlay alpha to 255 |
| Rpi2Driver.RpiCamera2.HideOverlay | pibooth/camera/rpi2.py:170 | the base class's `_hide_overlay`, as assumed here: the overlay is dropped and nothing else changes |
| Rpi2Driver.RpiCamera2.SpecificInitialization | pibooth/camera/rpi2.py:57-65 | the device receives the preview configuration, then start, and nothing else |
| Rpi2Driver.RpiCamera2.ShowOverlay | pibooth/camera/rpi2.py:67-73 | without a window nothing changes; otherwise the alpha is set and the overlay is rebuilt from the preview rectangle, the text and the alpha |
| Rpi2Driver.RpiCamera2.GetPreviewImage | pibooth/camera/rpi2.py:75-93 | one frame is grabbed, and the result is the preview pipeline applied to it with the current overlay |
| Rpi2Driver.RpiCamera2.Preview | pibooth/camera/rpi2.py:119-124 | the window and the flip are set, and exactly one preview frame is shown at once |
| Rpi2Driver.RpiCamera2.PreviewCountdown | pibooth/camera/rpi2.py:126-148 | a timeout below 1 raises before any device call or frame; otherwise the driver shows one frame per reading, each with that iteration's overlay from Ticks, then sets the "smile" overlay and shows exactly one more frame; the device sees only frame grabs |
| Rpi2Driver.RpiCamera2.CountdownFrame | pibooth/camera/rpi2.py:136-145 | one pass of the countdown loop applies the rebuild rule to the overlay state (and sets the overlay alpha exactly when it rebuilds), grabs exactly one frame and shows exactly one image, which carries the overlay as rebuilt |
| Rpi2Driver.RpiCamera2.PreviewWait | pibooth/camera/rpi2.py:150-165 | a timeout below 1 raises before any device call or frame; otherwise the driver shows one frame per reading with the overlay unchanged, then sets the "smile" overlay and shows exactly one more frame |
| Rpi2Driver.RpiCamera2.StopPreview | pibooth/camera/rpi2.py:167-171 | the overlay is dropped and the window is detached; the other fields are unchanged |
| Rpi2Driver.RpiCamera2.Capture | pibooth/camera/rpi2.py:173-194 | an effect whose normalised name is not in IMAGE_EFFECTS raises before any device call and leaves the capture buffer unchanged. Otherwise: the device log grows by exactly the exposure bracket; exactly one (frame, normalised effect) entry is appended at the end of the buffer, with earlier entries unchanged; the overlay is dropped |
| Rpi2Driver.RpiCamera2.Quit | pibooth/camera/rpi2.py:196-200 | stop is sent to the device whenever there is one, on every call |

## Left out

- Probe failures inside `find_camera`. The selector takes each probe's result as given; `Rpi2Model.GetRpiCamera2Proxy` models the one probe whose source is part of this model. The other three probe functions (`pibooth/camera/rpi.py`, `gphoto.py`, `opencv.py`) are not part of this model.
- The driver classes `RpiCamera`, `GpCamera`, `CvCamera`, `HybridRpiCamera` and `HybridCvCamera` are not part of this model. They appear only as tags: `Driver` constructors, and the class named in a `Quit` event.
- Python truthiness. A present proxy, window or device is taken to be truthy: these are objects without `__bool__`.
- `BaseCamera` is not part of this model, so its parts are taken as follows:
  - `get_rect()` is the constant field `rect`;
  - `build_overlay` yields the `Overlay(size, text, alpha)` value;
  - `_hide_overlay` is assumed to set `_overlay` to none;
  - the initial `_window`, `_overlay`, `_captures`, `resolution`, the ISO values, flips and rotation are constructor parameters.
- The timer (`PoolingTimer`) and its floating-point `remaining()`. The loops take the sequence of already-truncated integer readings as input.
- The float truncation `int(timeout)`. The timeout is an integer in the model.
- `str(remaining)`: the number overlay carries the integer (`Count(n)`) instead of its decimal text.
- `get_translated_text('smile')`: the smile text is a parameter.
- `pygame.event.pump` and `pygame.display.update` in the preview loops, `time.sleep(0.5)` and `LOGGER` calls in `capture`: display plumbing, wall-clock delay and logging.
- PIL's `fromarray`, `crop`, `resize`, `transpose`, `paste` and `filter`. They are recorded as pipeline steps, not computed on pixels.
- Whether `ImageFilter` has an attribute for each upper-cased effect name is not checked.
- The `pibooth.pictures.sizing` arithmetic. Crop boxes and target sizes are recorded by their inputs: the resolution, and the preview rectangle or the resolution.
- `str(effect).lower()` is modelled for `None` and for strings. Other argument types are not modelled. Lower-casing covers ASCII letters only.
- Rpi2Driver.RpiCamera2.PreviewCountdown and Rpi2Driver.RpiCamera2.PreviewWait require a window and a device only when the timeout is at least 1. A smaller timeout raises before either is touched, and that error path is modelled with or without them. With a valid timeout and no window or device, the source fails with an `AttributeError` that is not modelled.
- Rpi2Driver.RpiCamera2.Capture requires a device only when the effect is valid. An invalid effect raises before the device is touched, and that error path is modelled with or without one. With a valid effect and no device, the `AttributeError` is not modelled.
- Rpi2Driver.RpiCamera2.GetPreviewImage and Rpi2Driver.RpiCamera2.SpecificInitialization require a device, for the same reason: they use it on every path.
- Rpi2Driver.RpiCamera2.Preview requires a device and a non-null window. With `preview(None)` the source sets `_window` and `preview_flip` and then fails with an `AttributeError` at line 124 of `pibooth/camera/rpi2.py`; that failure is not modelled.
- Rpi2Driver.RpiCamera2.CountdownFrame requires a device and a window. It is one pass of the countdown loop, which runs only after the timeout check has passed, so it needs both for the reason given for PreviewCountdown above.
- Exceptions raised by the driver classes' constructors or by their `quit()`. `close_proxy` and `find_camera` catch nothing, so such an exception would end `find_camera` with no driver returned. The model assumes every `RpiCamera(...)`, `RpiCamera2(...)`, `GpCamera(...)`, `CvCamera(...)` and `quit()` call returns normally. This matters most at line 45 of `pibooth/camera/__init__.py`, where `CvCamera` is handed a Picamera2 proxy.
- Default arguments. `preview`'s `flip=True`, the `alpha=80` of `preview_countdown` and `preview_wait`, and `capture`'s `effect=None` are explicit parameters in the model. A caller that omits them corresponds to passing `true`, `80` and `None`.
- The order of the pipeline steps. `Steps` lists an image's operations in the source's order by definition, so the ordering parts of `PreviewPipeline` and `PostProcessPipeline` hold by construction. What those lemmas add is which steps occur and with which arguments.
- Rpi2Driver.RpiCamera2.Quit makes no idempotence claim: the device is never cleared, so every call sends another stop.
- The unused `port` parameter of `get_rpi_camera_2_proxy`.
- `_post_process_capture` takes a `(frame, effect)` pair. The model applies it to one buffered `PendingCapture` and to the driver's settings.

## Findings

| source | as written | input that shows it | evidently intended | confidence | as-written member | corrected member |
|---|---|---|---|---|---|---|
| pibooth/camera/__init__.py:53 | the Picamera2 branch calls close_proxy with three arguments (rpi, gp, cv); close_proxy takes four, so Python raises TypeError before RpiCamera2 is built | only a Picamera2 camera present (Picamera and gPhoto2 probes empty, OpenCV either way) | pass (rpi, None, gp, cv) and return the Picamera2 driver | not executed | CameraSelector.Picamera2BranchRaisesArgumentError | CameraSelector.CorrectedSelectionFollowsPriority |
| pibooth/camera/__init__.py:45 | the gPhoto2-only branch passes (rpi, None, cv, rpi2): the Picamera2 proxy sits in the OpenCV slot and is quit through CvCamera | gPhoto2 and Picamera2 present, Picamera and OpenCV absent (assuming CvCamera accepts and quits the Picamera2 proxy without raising) | pass (rpi, rpi2, None, cv), so each proxy is quit through its own class | not executed | CameraSelector.GPhoto2BranchReleasesPicamera2AsOpenCV | CameraSelector.CorrectedSelectionReleasesThroughOwnClass |
