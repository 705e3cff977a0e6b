/**
 * The value-level parts of the Picamera2 driver (pibooth/camera/rpi2.py):
 * effect names, the sensor configuration, the exposure bracket around a
 * capture, the countdown's overlay cache, the two image pipelines written as
 * ordered lists of step tags, and the proxy probe.
 */
module Rpi2Model {
  import opened Wrappers

  datatype Size = Size(width: int, height: int)

  /** Configuration the base camera class sets and the Picamera2 driver only reads. */
  datatype Settings = Settings(
    resolution: Size,
    previewIso: int,
    captureIso: int,
    captureFlip: bool,
    previewRotation: int)

  /** A raw sensor frame, identified by the number of frames the device delivered before it. */
  datatype Frame = Frame(index: nat)

  /** What an overlay displays: a countdown number, or a text such as the "smile" prompt. */
  datatype Label = Count(n: int) | Message(text: string)

  /** An overlay built by the base class from its size, its text and its transparency. */
  datatype Overlay = Overlay(size: Size, text: Label, alpha: int)

  /** The image operations of the two pipelines, in the library's terms. */
  datatype Step =
    | CropToRatio(resolution: Size)
    | ResizeOuter(target: Size)
    | FlipLeftRight
    | PasteOverlay(overlay: Overlay)
    | ApplyFilter(name: string)

  /**
   * An image: the frame it was made from and what the pipeline did to it
   * (the ratio it was cropped to, the size it was resized to, whether it was
   * mirrored, the overlay pasted on it and the filter applied, if any).
   */
  datatype Image = Image(
    source: Frame,
    ratio: Size,
    size: Size,
    mirrored: bool,
    overlay: Option<Overlay>,
    filter: Option<string>)

  /** One entry of the pending-captures buffer: a raw frame and the effect asked for. */
  datatype PendingCapture = PendingCapture(frame: Frame, effect: string)

  datatype CameraError = InvalidTimeout | InvalidEffect(effect: string)

  /** How a driver operation ends: normally, or by raising ValueError. */
  datatype Status = Done | Raised(error: CameraError)

  /** The sensor configuration handed to `configure`. */
  datatype SensorConfig = SensorConfig(
    mainSize: Size,
    format: string,
    exposureTime: int,
    hflip: bool,
    vflip: bool,
    rotation: int)

  /** What the driver asks of the Picamera2 device, in order. */
  datatype DeviceEvent =
    | Configure(config: SensorConfig)
    | Start
    | SetExposure(time: int)
    | CaptureArray
    | Stop

  // ---------------------------------------------------------------------------
  // Effect names

  /** RpiCamera2.IMAGE_EFFECTS. */
  const ImageEffects: seq<string> := [
    "none", "blur", "contour", "detail", "edge_enhance", "edge_enhance_more",
    "emboss", "find_edges", "smooth", "smooth_more", "sharpen"]

  function LowerChar(c: char): char
  {
    if 'A' <= c <= 'Z' then (c as int + 32) as char else c
  }

  function UpperChar(c: char): char
  {
    if 'a' <= c <= 'z' then (c as int - 32) as char else c
  }

  function Lower(s: string): (r: string)
    ensures |r| == |s|
  {
    seq(|s|, i requires 0 <= i < |s| => LowerChar(s[i]))
  }

  function Upper(s: string): (r: string)
    ensures |r| == |s|
  {
    seq(|s|, i requires 0 <= i < |s| => UpperChar(s[i]))
  }

  /**
   * `str(effect).lower()`: an absent effect is the string "None". The result
   * has no upper-case letter and differs from the name only in the case of
   * its letters; a name already in lower case is kept as is.
   */
  function Normalize(effect: Option<string>): (r: string)
    ensures IsLowerCase(r)
    ensures Upper(r) == Upper(if effect.None? then "None" else effect.value)
    ensures effect.Some? && IsLowerCase(effect.value) ==> r == effect.value
  {
    var name := if effect.None? then "None" else effect.value;
    assert IsLowerCase(name) ==> Lower(name) == name by {
      if IsLowerCase(name) {
        assert forall i :: 0 <= i < |name| ==> Lower(name)[i] == name[i];
      }
    }
    assert Upper(Lower(name)) == Upper(name) by {
      assert forall i :: 0 <= i < |name| ==> Upper(Lower(name))[i] == Upper(name)[i];
    }
    Lower(name)
  }

  /** A name with no upper-case letter. */
  predicate IsLowerCase(s: string)
  {
    forall i :: 0 <= i < |s| ==> !('A' <= s[i] <= 'Z')
  }

  /**
   * Normalised names are lower case and normalising again changes nothing
   * (NormalizeIgnoresCase adds that the caller's choice of case does not matter).
   */
  lemma NormalizeIsCanonical(effect: Option<string>)
    ensures IsLowerCase(Normalize(effect))
    ensures Normalize(Some(Normalize(effect))) == Normalize(effect)
  {
    var n := Normalize(effect);
    assert Lower(n) == n by {
      forall i | 0 <= i < |n| ensures Lower(n)[i] == n[i] {
      }
    }
  }
  /** Two names that differ only in the case of their letters normalise to the same name. */
  lemma NormalizeIgnoresCase(a: string, b: string)
    requires Upper(a) == Upper(b)
    ensures Normalize(Some(a)) == Normalize(Some(b))
  {
    var ra, rb := Normalize(Some(a)), Normalize(Some(b));
    forall i | 0 <= i < |ra|
      ensures ra[i] == rb[i]
    {
      assert Upper(ra)[i] == Upper(a)[i] == Upper(b)[i] == Upper(rb)[i];
      assert !('A' <= ra[i] <= 'Z') && !('A' <= rb[i] <= 'Z');
    }
  }


  /** `capture(None)` stores "none" and `capture('BLUR')` stores "blur"; both are accepted. */
  lemma NormalizeExamples()
    ensures Normalize(None) == "none" && "none" in ImageEffects
    ensures Normalize(Some("BLUR")) == "blur" && "blur" in ImageEffects
  {
    assert Lower("None") == "none" by {
      assert Lower("None")[0] == 'n';
    }
    assert Lower("BLUR") == "blur" by {
      assert Lower("BLUR")[0] == 'b' && Lower("BLUR")[1] == 'l';
      assert Lower("BLUR")[2] == 'u' && Lower("BLUR")[3] == 'r';
    }
  }

  // ---------------------------------------------------------------------------
  // Sensor configuration and exposure

  /**
   * The preview configuration of `_specific_initialization`: the main stream
   * is the resolution turned landscape, the exposure time is the preview ISO
   * times 1000, and the transform flips horizontally as the preview does.
   */
  function SensorConfigFor(s: Settings, previewFlip: bool): (c: SensorConfig)
    ensures c.mainSize.width >= c.mainSize.height
    ensures multiset{c.mainSize.width, c.mainSize.height}
         == multiset{s.resolution.width, s.resolution.height}
    ensures c.exposureTime == s.previewIso * 1000
    ensures c.hflip == previewFlip && !c.vflip && c.rotation == s.previewRotation
  {
    var w, h := s.resolution.width, s.resolution.height;
    SensorConfig(
      Size(if w >= h then w else h, if w >= h then h else w),
      "BGR888",
      s.previewIso * 1000,
      previewFlip, false, s.previewRotation)
  }

  /** The device calls of `capture`: the frame grab, bracketed when the two ISO values differ. */
  function ExposureBracket(previewIso: int, captureIso: int): (b: seq<DeviceEvent>)
    ensures multiset(b)[CaptureArray] == 1
    ensures |b| > 1 <==> captureIso != previewIso
    ensures captureIso != previewIso ==>
      |b| == 3 && b[0] == SetExposure(captureIso * 1000) && b[2] == SetExposure(previewIso * 1000)
  {
    if captureIso != previewIso then
      [SetExposure(captureIso * 1000), CaptureArray, SetExposure(previewIso * 1000)]
    else
      [CaptureArray]
  }

  /** The exposure time in force after the device has seen `log`, starting from `e`. */
  function ExposureAfter(e: int, log: seq<DeviceEvent>): int
    decreases |log|
  {
    if log == [] then e
    else
      var next := match log[0]
        case SetExposure(t) => t
        case Configure(c) => c.exposureTime
        case _ => e;
      ExposureAfter(next, log[1..])
  }

  lemma {:induction false} ExposureAfterAppend(e: int, a: seq<DeviceEvent>, b: seq<DeviceEvent>)
    ensures ExposureAfter(e, a + b) == ExposureAfter(ExposureAfter(e, a), b)
    decreases |a|
  {
    if a == [] {
      assert a + b == b;
    } else {
      assert (a + b)[1..] == a[1..] + b;
      var next := match a[0]
        case SetExposure(t) => t
        case Configure(c) => c.exposureTime
        case _ => e;
      ExposureAfterAppend(next, a[1..], b);
    }
  }

  /** Initialisation leaves the sensor at the preview exposure. */
  lemma InitializationSetsPreviewExposure(e: int, log: seq<DeviceEvent>, s: Settings, previewFlip: bool)
    ensures ExposureAfter(e, log + [Configure(SensorConfigFor(s, previewFlip)), Start])
         == s.previewIso * 1000
  {
    var init := [Configure(SensorConfigFor(s, previewFlip)), Start];
    ExposureAfterAppend(e, log, init);
    var x := ExposureAfter(e, log);
    assert init[1..] == [Start] && init[1..][1..] == [];
    assert ExposureAfter(x, init) == ExposureAfter(s.previewIso * 1000, [Start]);
  }

  /**
   * From a sensor at the preview exposure, `capture` grabs exactly one frame,
   * at the capture exposure, and leaves the sensor at the preview exposure
   * again.
   */
  lemma CaptureRunsAtCaptureExposure(e: int, log: seq<DeviceEvent>, previewIso: int, captureIso: int)
    requires ExposureAfter(e, log) == previewIso * 1000
    ensures var b := ExposureBracket(previewIso, captureIso);
            var k := if captureIso != previewIso then 1 else 0;
            && k < |b| && b[k] == CaptureArray
            && (forall j :: 0 <= j < |b| && j != k ==> b[j] != CaptureArray)
            && ExposureAfter(e, log + b[..k]) == captureIso * 1000
            && ExposureAfter(e, log + b) == previewIso * 1000
  {
    var b := ExposureBracket(previewIso, captureIso);
    var k := if captureIso != previewIso then 1 else 0;
    ExposureAfterAppend(e, log, b[..k]);
    ExposureAfterAppend(e, log, b);
    var x := ExposureAfter(e, log);
    if k == 1 {
      assert b[..k][1..] == [];
      assert ExposureAfter(x, b[..k]) == ExposureAfter(captureIso * 1000, []);
      assert b[1..][1..][1..] == [];
      assert ExposureAfter(x, b) == ExposureAfter(captureIso * 1000, b[1..]);
      assert ExposureAfter(captureIso * 1000, b[1..]) == ExposureAfter(captureIso * 1000, b[1..][1..]);
    } else {
      assert b[..k] == [] && b[1..] == [];
      assert ExposureAfter(x, b) == ExposureAfter(x, []);
    }
  }

  // ---------------------------------------------------------------------------
  // The two image pipelines

  /** Where each kind of step may stand in a pipeline. */
  function Rank(s: Step): nat
  {
    match s
    case CropToRatio(_) => 0
    case ResizeOuter(_) => 1
    case FlipLeftRight => 2
    case PasteOverlay(_) => 3
    case ApplyFilter(_) => 3
  }

  /** Each kind of step at most once, crop before resize before flip before overlay or filter. */
  predicate InPipelineOrder(steps: seq<Step>)
  {
    forall j, k :: 0 <= j < k < |steps| ==> Rank(steps[j]) < Rank(steps[k])
  }

  /** The parts of `_get_preview_image` that do not touch the device. */
  datatype PreviewView = PreviewView(resolution: Size, rect: Size, flip: bool)

  /**
   * The operations an image went through, in the order both pipelines apply
   * them (crop, resize, flip, then overlay or filter). The order is fixed
   * here, once, from the order of the statements in `_get_preview_image` and
   * `_post_process_capture`; an `Image` records which operations ran and
   * with what arguments, so the pipeline lemmas check those choices, and
   * their statements about order hold by this definition.
   */
  function Steps(img: Image): seq<Step>
  {
    [CropToRatio(img.ratio), ResizeOuter(img.size)]
    + (if img.mirrored then [FlipLeftRight] else [])
    + (if img.overlay.Some? then [PasteOverlay(img.overlay.value)] else [])
    + (if img.filter.Some? then [ApplyFilter(img.filter.value)] else [])
  }

  /** `_get_preview_image` after the frame grab. */
  function PreviewImage(f: Frame, v: PreviewView, overlay: Option<Overlay>): (img: Image)
    ensures img.source == f
    ensures Steps(img) == [CropToRatio(v.resolution), ResizeOuter(v.rect)]
                          + (if v.flip then [FlipLeftRight] else [])
                          + (if overlay.Some? then [PasteOverlay(overlay.value)] else [])
  {
    Image(f, v.resolution, v.rect, v.flip, overlay, None)
  }

  /**
   * A preview image is the frame cropped to the resolution's ratio, resized
   * to fill the preview rectangle, mirrored iff the preview is flipped, with
   * the overlay, if there is one, pasted on top last; no filter is applied.
   */
  lemma PreviewPipeline(f: Frame, v: PreviewView, overlay: Option<Overlay>)
    ensures var img := PreviewImage(f, v, overlay); var steps := Steps(img);
      && img.source == f && InPipelineOrder(steps)
      && |steps| >= 2
      && steps[0] == CropToRatio(v.resolution) && steps[1] == ResizeOuter(v.rect)
      && (FlipLeftRight in steps <==> v.flip)
      && (forall k :: 0 <= k < |steps| && steps[k].PasteOverlay? ==> overlay == Some(steps[k].overlay))
      && (overlay.Some? ==> steps[|steps| - 1] == PasteOverlay(overlay.value))
      && (forall k :: 0 <= k < |steps| ==> !steps[k].ApplyFilter?)
  {
  }

  /** `_post_process_capture`, applied to one buffered capture. */
  function PostProcessCapture(c: PendingCapture, s: Settings): (img: Image)
    ensures img.source == c.frame
    ensures Steps(img) == [CropToRatio(s.resolution), ResizeOuter(s.resolution)]
                          + (if s.captureFlip then [FlipLeftRight] else [])
                          + (if c.effect != "none" then [ApplyFilter(Upper(c.effect))] else [])
  {
    Image(c.frame, s.resolution, s.resolution, s.captureFlip, None,
          if c.effect != "none" then Some(Upper(c.effect)) else None)
  }

  /**
   * Post-processing crops to the resolution's ratio, resizes to the
   * resolution, mirrors iff capture_flip, and applies the effect's filter
   * (looked up by its upper-case name) iff the effect is not "none"; the
   * filter comes last and at most once, and no overlay is pasted.
   */
  lemma PostProcessPipeline(c: PendingCapture, s: Settings)
    ensures var img := PostProcessCapture(c, s); var steps := Steps(img);
      && img.source == c.frame && InPipelineOrder(steps)
      && |steps| >= 2
      && steps[0] == CropToRatio(s.resolution) && steps[1] == ResizeOuter(s.resolution)
      && (FlipLeftRight in steps <==> s.captureFlip)
      && (forall k :: 0 <= k < |steps| && steps[k].ApplyFilter? ==> steps[k].name == Upper(c.effect))
      && (c.effect != "none" <==> ApplyFilter(Upper(c.effect)) in steps)
      && (forall k :: 0 <= k < |steps| ==> !steps[k].PasteOverlay?)
  {
  }

  // ---------------------------------------------------------------------------
  // The countdown's overlay cache

  /** The loop state of `preview_countdown`: the overlay and the last number it was built for. */
  datatype Tick = Tick(overlay: Option<Overlay>, last: int)

  /** One loop iteration: rebuild the overlay only if there is none or the number changed. */
  function Rebuild(t: Tick, remaining: int, size: Size, alpha: int): (r: Tick)
    ensures r.last == remaining && r.overlay.Some?
    ensures r == t <==> t.overlay.Some? && remaining == t.last
    ensures r != t ==> r.overlay == Some(Overlay(size, Count(remaining), alpha))
  {
    if t.overlay.None? || remaining != t.last then
      Tick(Some(Overlay(size, Count(remaining), alpha)), remaining)
    else t
  }

  function LastTick(t0: Tick, ts: seq<Tick>): Tick
  {
    if ts == [] then t0 else ts[|ts| - 1]
  }

  /** The loop state after each iteration, for the timer readings `rs`, starting from `t0`. */
  function Ticks(t0: Tick, rs: seq<int>, size: Size, alpha: int): (ts: seq<Tick>)
    ensures |ts| == |rs|
    decreases |rs|
  {
    if rs == [] then []
    else
      var prev := Ticks(t0, rs[..|rs| - 1], size, alpha);
      prev + [Rebuild(LastTick(t0, prev), rs[|rs| - 1], size, alpha)]
  }

  /** Iteration k applies the rebuild rule to the state iteration k-1 left. */
  lemma {:induction false} TicksAt(t0: Tick, rs: seq<int>, size: Size, alpha: int, k: nat)
    requires k < |rs|
    ensures Ticks(t0, rs, size, alpha)[k]
         == Rebuild(if k == 0 then t0 else Ticks(t0, rs, size, alpha)[k - 1], rs[k], size, alpha)
    decreases |rs|
  {
    var n := |rs|;
    var prefix := rs[..n - 1];
    if k < n - 1 {
      TicksAt(t0, prefix, size, alpha, k);
      assert prefix[k] == rs[k];
    }
  }

  /**
   * After iteration k the recorded number is the current timer reading and
   * an overlay is shown: the one built for that reading, or, while every
   * reading so far equals the starting value, the overlay that was already
   * there when the countdown began.
   */
  lemma {:induction false} CountdownOverlayTracksReading(t0: Tick, rs: seq<int>, size: Size, alpha: int, k: nat)
    requires k < |rs|
    ensures var t := Ticks(t0, rs, size, alpha)[k];
            && t.last == rs[k]
            && t.overlay.Some?
            && (t.overlay == Some(Overlay(size, Count(rs[k]), alpha))
                || (t.overlay == t0.overlay && forall j :: 0 <= j <= k ==> rs[j] == t0.last))
  {
    TicksAt(t0, rs, size, alpha, k);
    if k > 0 {
      CountdownOverlayTracksReading(t0, rs, size, alpha, k - 1);
    }
  }

  /**
   * Between two consecutive iterations the overlay state changes exactly when
   * the displayed number changes, and a changed number is shown at once.
   */
  lemma OverlayRebuiltOnlyOnChange(t0: Tick, rs: seq<int>, size: Size, alpha: int, k: nat)
    requires 0 < k < |rs|
    ensures var ts := Ticks(t0, rs, size, alpha);
            && (ts[k] != ts[k - 1] <==> rs[k] != rs[k - 1])
            && (rs[k] != rs[k - 1] ==> ts[k].overlay == Some(Overlay(size, Count(rs[k]), alpha)))
  {
    TicksAt(t0, rs, size, alpha, k);
    CountdownOverlayTracksReading(t0, rs, size, alpha, k - 1);
  }

  /** The overlays shown by a run of iterations, in order. */
  function OverlaysOf(ts: seq<Tick>): seq<Option<Overlay>>
  {
    seq(|ts|, k requires 0 <= k < |ts| => ts[k].overlay)
  }

  lemma OverlaysOfSnoc(ts: seq<Tick>, t: Tick)
    ensures OverlaysOf(ts + [t]) == OverlaysOf(ts) + [t.overlay]
  {
    assert forall k :: 0 <= k < |ts| ==> OverlaysOf(ts + [t])[k] == OverlaysOf(ts)[k];
  }

  /** `n` copies of `x`. */
  function Repeat<T>(x: T, n: nat): seq<T>
  {
    seq(n, _ => x)
  }

  /** Appending one more copy to a log that ends in `n` copies. */
  lemma RepeatSnoc<T>(log: seq<T>, x: T, n: nat)
    ensures log + Repeat(x, n) + [x] == log + Repeat(x, n + 1)
  {
    assert Repeat(x, n + 1) == Repeat(x, n) + [x];
    assert log + Repeat(x, n) + [x] == log + (Repeat(x, n) + [x]);
  }

  /** The images a preview loop shows: iteration k shows frame first+k with that iteration's overlay. */
  function ShownDuring(first: nat, overlays: seq<Option<Overlay>>, v: PreviewView): seq<Image>
  {
    seq(|overlays|, k requires 0 <= k < |overlays| => PreviewImage(Frame(first + k), v, overlays[k]))
  }

  lemma ShownDuringSnoc(first: nat, overlays: seq<Option<Overlay>>, o: Option<Overlay>, v: PreviewView)
    ensures ShownDuring(first, overlays + [o], v)
         == ShownDuring(first, overlays, v) + [PreviewImage(Frame(first + |overlays|), v, o)]
  {
    assert forall k :: 0 <= k < |overlays| ==> ShownDuring(first, overlays + [o], v)[k] == ShownDuring(first, overlays, v)[k];
  }

  /** One more iteration of `preview_wait` shows one more frame, with the same overlay. */
  lemma WaitStep(first: nat, o: Option<Overlay>, i: nat, v: PreviewView)
    ensures ShownDuring(first, Repeat(o, i + 1), v)
         == ShownDuring(first, Repeat(o, i), v) + [PreviewImage(Frame(first + i), v, o)]
  {
    assert Repeat(o, i + 1) == Repeat(o, i) + [o];
    ShownDuringSnoc(first, Repeat(o, i), o, v);
  }

  /** One more timer reading adds one loop state: the rebuild rule applied to the last one. */
  lemma TicksSnoc(t0: Tick, rs: seq<int>, i: nat, size: Size, alpha: int)
    requires i < |rs|
    ensures var before := Ticks(t0, rs[..i], size, alpha);
            Ticks(t0, rs[..i + 1], size, alpha) == before + [Rebuild(LastTick(t0, before), rs[i], size, alpha)]
  {
    assert rs[..i + 1][..i] == rs[..i];
  }

  /** One more iteration of `preview_countdown` shows one more frame, with that iteration's overlay. */
  lemma CountdownShownSnoc(first: nat, ts: seq<Tick>, t: Tick, v: PreviewView)
    ensures ShownDuring(first, OverlaysOf(ts + [t]), v)
         == ShownDuring(first, OverlaysOf(ts), v) + [PreviewImage(Frame(first + |ts|), v, t.overlay)]
  {
    OverlaysOfSnoc(ts, t);
    ShownDuringSnoc(first, OverlaysOf(ts), t.overlay, v);
  }

  // ---------------------------------------------------------------------------
  // The proxy probe

  /** How constructing `Picamera2()` ends. */
  datatype Construction<H> = Constructed(camera: H) | RaisedOSError | RaisedOther(reason: string)

  /**
   * get_rpi_camera_2_proxy: no proxy unless both libraries imported; the new
   * camera if its construction succeeds; no proxy on OSError; any other
   * exception propagates to the caller.
   */
  function GetRpiCamera2Proxy<H>(picamera2Imported: bool, libcameraImported: bool, construct: Construction<H>)
    : (r: Result<Option<H>, string>)
    ensures r.Failure? <==> picamera2Imported && libcameraImported && construct.RaisedOther?
    ensures r.Failure? ==> r.error == construct.reason
    ensures (r.Success? && r.value.Some?) <==> picamera2Imported && libcameraImported && construct.Constructed?
    ensures r.Success? && r.value.Some? ==> r.value.value == construct.camera
  {
    if !picamera2Imported || !libcameraImported then Success(None)
    else
      match construct
      case Constructed(cam) => Success(Some(cam))
      case RaisedOSError => Success(None)
      case RaisedOther(reason) => Failure(reason)
  }
}
