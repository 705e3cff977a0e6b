/**
 * The Picamera2 driver object (class RpiCamera2 of pibooth/camera/rpi2.py)
 * and the two objects it talks to: the Picamera2 device, reduced to the log
 * of calls it receives, and the preview window, reduced to the images shown
 * on it.
 */
module Rpi2Driver {
  import opened Wrappers
  import opened Rpi2Model

  /** The Picamera2 device: every call is appended to `log`; frames are numbered in delivery order. */
  class Device {
    var log: seq<DeviceEvent>
    var grabbed: nat

    method Configure(config: SensorConfig)
      modifies this
      ensures log == old(log) + [DeviceEvent.Configure(config)] && grabbed == old(grabbed)
    {
      log := log + [DeviceEvent.Configure(config)];
    }

    method Start()
      modifies this
      ensures log == old(log) + [DeviceEvent.Start] && grabbed == old(grabbed)
    {
      log := log + [DeviceEvent.Start];
    }

    /** `set_controls({'ExposureTime': time})`. */
    method SetControls(time: int)
      modifies this
      ensures log == old(log) + [SetExposure(time)] && grabbed == old(grabbed)
    {
      log := log + [SetExposure(time)];
    }

    method CaptureArray() returns (f: Frame)
      modifies this
      ensures f == Frame(old(grabbed))
      ensures log == old(log) + [DeviceEvent.CaptureArray] && grabbed == old(grabbed) + 1
    {
      f := Frame(grabbed);
      log := log + [DeviceEvent.CaptureArray];
      grabbed := grabbed + 1;
    }

    method Stop()
      modifies this
      ensures log == old(log) + [DeviceEvent.Stop] && grabbed == old(grabbed)
    {
      log := log + [DeviceEvent.Stop];
    }
  }

  /** The preview window: the images handed to `show_image`, in order. */
  class Window {
    var shown: seq<Image>

    method ShowImage(img: Image)
      modifies this
      ensures shown == old(shown) + [img]
    {
      shown := shown + [img];
    }
  }

  class RpiCamera2 {
    /** `_cam`: the proxy the driver was built around. */
    const cam: Device?
    const settings: Settings
    /** The rectangle `get_rect()` reports for the preview. */
    const rect: Size

    var window: Window?
    var previewFlip: bool
    var overlay: Option<Overlay>
    var overlayAlpha: int
    var captures: seq<PendingCapture>

    /** The base class leaves the window, overlay and captures as given; this driver sets the alpha to 255. */
    constructor (proxy: Device?, settings: Settings, rect: Size, previewFlip: bool,
                 window: Window?, overlay: Option<Overlay>, captures: seq<PendingCapture>)
      ensures this.cam == proxy && this.settings == settings && this.rect == rect
      ensures this.previewFlip == previewFlip && this.window == window
      ensures this.overlay == overlay && this.captures == captures
      ensures overlayAlpha == 255
    {
      this.cam := proxy;
      this.settings := settings;
      this.rect := rect;
      this.previewFlip := previewFlip;
      this.window := window;
      this.overlay := overlay;
      this.captures := captures;
      overlayAlpha := 255;
    }

    function View(): PreviewView
      reads this
    {
      PreviewView(settings.resolution, rect, previewFlip)
    }

    /** `_specific_initialization`: configure the sensor for preview, then start it. */
    method SpecificInitialization()
      requires cam != null
      modifies cam
      ensures cam.log == old(cam.log) + [DeviceEvent.Configure(SensorConfigFor(settings, previewFlip)), DeviceEvent.Start]
      ensures cam.grabbed == old(cam.grabbed)
    {
      var config := SensorConfigFor(settings, previewFlip);
      cam.Configure(config);
      cam.Start();
    }

    /** `_hide_overlay` of the base class, taken to drop the overlay. */
    method HideOverlay()
      modifies this
      ensures overlay == None
      ensures window == old(window) && previewFlip == old(previewFlip)
      ensures overlayAlpha == old(overlayAlpha) && captures == old(captures)
    {
      overlay := None;
    }

    /** `_show_overlay`: without a window nothing changes; otherwise the overlay is rebuilt. */
    method ShowOverlay(text: Label, alpha: int)
      modifies this
      ensures window == old(window) && previewFlip == old(previewFlip) && captures == old(captures)
      ensures old(window) == null ==> overlay == old(overlay) && overlayAlpha == old(overlayAlpha)
      ensures old(window) != null ==> overlay == Some(Overlay(rect, text, alpha)) && overlayAlpha == alpha
    {
      if window != null {
        overlayAlpha := alpha;
        overlay := Some(Overlay(rect, text, alpha));
      }
    }

    /** `_get_preview_image`: grab the next frame and run the preview pipeline on it. */
    method GetPreviewImage() returns (img: Image)
      requires cam != null
      modifies cam
      ensures img == PreviewImage(Frame(old(cam.grabbed)), View(), overlay)
      ensures cam.log == old(cam.log) + [DeviceEvent.CaptureArray] && cam.grabbed == old(cam.grabbed) + 1
    {
      var frame := cam.CaptureArray();
      img := PreviewImage(frame, View(), overlay);
    }

    /** `preview`: attach the window, set the flip, and show one frame at once. */
    method Preview(w: Window, flip: bool)
      requires cam != null
      modifies this, cam, w
      ensures window == w && previewFlip == flip
      ensures overlay == old(overlay) && overlayAlpha == old(overlayAlpha) && captures == old(captures)
      ensures w.shown == old(w.shown) + [PreviewImage(Frame(old(cam.grabbed)), View(), overlay)]
      ensures cam.log == old(cam.log) + [DeviceEvent.CaptureArray] && cam.grabbed == old(cam.grabbed) + 1
    {
      window := w;
      previewFlip := flip;
      var img := GetPreviewImage();
      w.ShowImage(img);
    }

    /**
     * `preview_countdown`: refuse a timeout below one before touching anything;
     * otherwise show one frame per timer reading, rebuilding the number
     * overlay as Ticks says, then the "smile" overlay and one last frame.
     */
    method PreviewCountdown(timeout: int, readings: seq<int>, smile: string, alpha: int) returns (s: Status)
      requires timeout >= 1 ==> cam != null && window != null
      modifies this, cam, window
      ensures window == old(window) && previewFlip == old(previewFlip) && captures == old(captures)
      ensures timeout < 1 ==>
        && s == Raised(InvalidTimeout)
        && overlay == old(overlay) && overlayAlpha == old(overlayAlpha)
        && (cam != null ==> cam.log == old(cam.log) && cam.grabbed == old(cam.grabbed))
        && (window != null ==> window.shown == old(window.shown))
      ensures timeout >= 1 ==>
        var ticks := Ticks(Tick(old(overlay), timeout), readings, rect, alpha);
        var smiling := Some(Overlay(rect, Message(smile), alpha));
        && s == Done
        && overlay == smiling && overlayAlpha == alpha
        && cam.log == old(cam.log) + Repeat(DeviceEvent.CaptureArray, |readings| + 1)
        && cam.grabbed == old(cam.grabbed) + |readings| + 1
        && window.shown == old(window.shown)
             + ShownDuring(old(cam.grabbed), OverlaysOf(ticks), View())
             + [PreviewImage(Frame(old(cam.grabbed) + |readings|), View(), smiling)]
    {
      if timeout < 1 {
        return Raised(InvalidTimeout);
      }
      ghost var t0 := Tick(overlay, timeout);
      ghost var g0, log0, shown0, v := cam.grabbed, cam.log, window.shown, View();
      ghost var frames: seq<Image> := [];
      ghost var ticks: seq<Tick> := [];
      var last := timeout;
      var i := 0;
      while i < |readings|
        invariant 0 <= i <= |readings|
        invariant window == old(window) && previewFlip == old(previewFlip) && captures == old(captures)
        invariant ticks == Ticks(t0, readings[..i], rect, alpha)
        invariant Tick(overlay, last) == LastTick(t0, ticks)
        invariant cam.grabbed == g0 + i && cam.log == log0 + Repeat(DeviceEvent.CaptureArray, i)
        invariant frames == ShownDuring(g0, OverlaysOf(ticks), v)
        invariant window.shown == shown0 + frames
      {
        ghost var t := Rebuild(Tick(overlay, last), readings[i], rect, alpha);
        last := CountdownFrame(readings[i], last, alpha);
        ghost var img := PreviewImage(Frame(g0 + i), v, t.overlay);
        assert window.shown == shown0 + (frames + [img]);
        assert cam.log == log0 + Repeat(DeviceEvent.CaptureArray, i + 1) by {
          RepeatSnoc(log0, DeviceEvent.CaptureArray, i);
        }
        assert ticks + [t] == Ticks(t0, readings[..i + 1], rect, alpha) by {
          TicksSnoc(t0, readings, i, rect, alpha);
        }
        assert frames + [img] == ShownDuring(g0, OverlaysOf(ticks + [t]), v) by {
          CountdownShownSnoc(g0, ticks, t, v);
        }
        frames := frames + [img];
        ticks := ticks + [t];
        i := i + 1;
      }
      assert readings[..i] == readings;
      ShowOverlay(Message(smile), alpha);
      var img := GetPreviewImage();
      window.ShowImage(img);
      assert cam.log == log0 + Repeat(DeviceEvent.CaptureArray, i + 1) by {
        RepeatSnoc(log0, DeviceEvent.CaptureArray, i);
      }
      s := Done;
    }

    /** One pass of the countdown loop: refresh the overlay if the reading changed, then show one frame. */
    method CountdownFrame(remaining: int, last: int, alpha: int) returns (newLast: int)
      requires cam != null && window != null
      modifies this, cam, window
      ensures window == old(window) && previewFlip == old(previewFlip) && captures == old(captures)
      ensures Tick(overlay, newLast) == Rebuild(Tick(old(overlay), last), remaining, rect, alpha)
      ensures overlayAlpha == if old(overlay).None? || remaining != last then alpha else old(overlayAlpha)
      ensures cam.grabbed == old(cam.grabbed) + 1 && cam.log == old(cam.log) + [DeviceEvent.CaptureArray]
      ensures window.shown == old(window.shown) + [PreviewImage(Frame(old(cam.grabbed)), View(), overlay)]
    {
      newLast := last;
      if overlay.None? || remaining != last {
        ShowOverlay(Count(remaining), alpha);
        newLast := remaining;
      }
      var img := GetPreviewImage();
      window.ShowImage(img);
    }

    /**
     * `preview_wait`: refuse a timeout below one before touching anything;
     * otherwise show one frame per timer reading with the overlay left as it
     * was, then the "smile" overlay and one last frame.
     */
    method PreviewWait(timeout: int, readings: seq<int>, smile: string, alpha: int) returns (s: Status)
      requires timeout >= 1 ==> cam != null && window != null
      modifies this, cam, window
      ensures window == old(window) && previewFlip == old(previewFlip) && captures == old(captures)
      ensures timeout < 1 ==>
        && s == Raised(InvalidTimeout)
        && overlay == old(overlay) && overlayAlpha == old(overlayAlpha)
        && (cam != null ==> cam.log == old(cam.log) && cam.grabbed == old(cam.grabbed))
        && (window != null ==> window.shown == old(window.shown))
      ensures timeout >= 1 ==>
        var smiling := Some(Overlay(rect, Message(smile), alpha));
        && s == Done
        && overlay == smiling && overlayAlpha == alpha
        && cam.log == old(cam.log) + Repeat(DeviceEvent.CaptureArray, |readings| + 1)
        && cam.grabbed == old(cam.grabbed) + |readings| + 1
        && window.shown == old(window.shown)
             + ShownDuring(old(cam.grabbed), Repeat(old(overlay), |readings|), View())
             + [PreviewImage(Frame(old(cam.grabbed) + |readings|), View(), smiling)]
    {
      if timeout < 1 {
        return Raised(InvalidTimeout);
      }
      ghost var g0, log0, shown0, v := cam.grabbed, cam.log, window.shown, View();
      ghost var frames: seq<Image> := [];
      var i := 0;
      while i < |readings|
        invariant 0 <= i <= |readings|
        invariant cam.grabbed == g0 + i && cam.log == log0 + Repeat(DeviceEvent.CaptureArray, i)
        invariant frames == ShownDuring(g0, Repeat(overlay, i), v)
        invariant window.shown == shown0 + frames
        modifies cam, window
      {
        var img := GetPreviewImage();
        assert img == PreviewImage(Frame(g0 + i), v, overlay);
        window.ShowImage(img);
        assert window.shown == shown0 + (frames + [img]);
        assert cam.log == log0 + Repeat(DeviceEvent.CaptureArray, i + 1) by {
          RepeatSnoc(log0, DeviceEvent.CaptureArray, i);
        }
        assert frames + [img] == ShownDuring(g0, Repeat(overlay, i + 1), v) by {
          WaitStep(g0, overlay, i, v);
        }
        frames := frames + [img];
        i := i + 1;
      }
      ShowOverlay(Message(smile), alpha);
      var img := GetPreviewImage();
      assert img == PreviewImage(Frame(g0 + i), v, Some(Overlay(rect, Message(smile), alpha)));
      window.ShowImage(img);
      assert cam.log == log0 + Repeat(DeviceEvent.CaptureArray, i + 1) by {
        RepeatSnoc(log0, DeviceEvent.CaptureArray, i);
      }
      s := Done;
    }

    /** `stop_preview`: drop the overlay and detach the window. */
    method StopPreview()
      modifies this
      ensures overlay == None && window == null
      ensures previewFlip == old(previewFlip) && overlayAlpha == old(overlayAlpha) && captures == old(captures)
    {
      HideOverlay();
      window := null;
    }

    /**
     * `capture`: an effect whose normalised name is not in IMAGE_EFFECTS is
     * refused before any device call; otherwise one frame is grabbed inside
     * the exposure bracket, exactly one (frame, effect) entry is appended to
     * the buffer, and the overlay is dropped.
     */
    method Capture(effect: Option<string>) returns (s: Status)
      requires Normalize(effect) in ImageEffects ==> cam != null
      modifies this, cam
      ensures window == old(window) && previewFlip == old(previewFlip) && overlayAlpha == old(overlayAlpha)
      ensures Normalize(effect) !in ImageEffects ==>
        && s == Raised(InvalidEffect(Normalize(effect)))
        && captures == old(captures) && overlay == old(overlay)
        && (cam != null ==> cam.log == old(cam.log) && cam.grabbed == old(cam.grabbed))
      ensures Normalize(effect) in ImageEffects ==>
        && s == Done
        && captures == old(captures) + [PendingCapture(Frame(old(cam.grabbed)), Normalize(effect))]
        && overlay == None
        && cam.log == old(cam.log) + ExposureBracket(settings.previewIso, settings.captureIso)
        && cam.grabbed == old(cam.grabbed) + 1
    {
      var name := Normalize(effect);
      if name !in ImageEffects {
        return Raised(InvalidEffect(name));
      }
      ghost var log0 := cam.log;
      if settings.captureIso != settings.previewIso {
        cam.SetControls(settings.captureIso * 1000);
      }
      var frame := cam.CaptureArray();
      if settings.captureIso != settings.previewIso {
        cam.SetControls(settings.previewIso * 1000);
      }
      assert cam.log == log0 + ExposureBracket(settings.previewIso, settings.captureIso);
      captures := captures + [PendingCapture(frame, name)];
      HideOverlay();
      s := Done;
    }

    /** `quit`: stop the device if there is one; nothing records that it was stopped. */
    method Quit()
      modifies cam
      ensures cam != null ==> cam.log == old(cam.log) + [DeviceEvent.Stop] && cam.grabbed == old(cam.grabbed)
    {
      if cam != null {
        cam.Stop();
      }
    }
  }
}
