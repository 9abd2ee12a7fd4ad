/** `SEM.Microscope`: the gateway to the instrument. The Autoscript client is
    the `hw` record; whether a client attribute can be read or written is an
    oracle: `online` (a client connected to an instrument) and the set
    `faults` of accesses that raise. */
module Scope {
  import opened Base
  import opened Settings
  import opened Rules
  import opened Text

  const AllAttrs: seq<Attr> := [Stage, WorkingDistance, HfwValue, HfwLimits, ScanResolution,
    HighVoltage, BeamCurrent, Rotation, RotationLimits, Brightness, Contrast, BeamShift,
    Blanking, View, Spot, AutoCb, Grab, LastFrame]

  lemma AllAttrsComplete(a: Attr)
    ensures a in AllAttrs
  {
  }

  /** The images the operations return; pixels are not modelled. */
  datatype Image =
    | Grabbed(request: GrabRequest)     // live grab with explicit settings
    | GrabbedDefault                    // live grab without settings
    | LastOf(view: Value)               // live `get_image` of a view
    | Simulated(height: int, width: int) // demo random image of this shape

  /** What `beam_blank`, `blank` and `unblank` return. */
  datatype BlankReply = Blanked(blanked: bool) | DemoBlank

  /** `np.random.rand` scaled as in `update_stage_position`'s fallback. */
  predicate RandomPosition(p: Position)
  {
    0.0 <= p.x < 0.001 && 0.0 <= p.y < 0.001 && 0.0 <= p.z < 0.001 && 0.0 <= p.t < 1.0 && 0.0 <= p.r < 1.0
  }

  class Microscope {
    const demo: bool
    const online: bool
    const faults: set<Op>
    var hw: Hardware
    var state: MicroscopeState
    /** `self.resolution`, `self.dwell_time`, ... as `update_image_settings` leaves them. */
    var cache: map<Field, Value>
    var imageSettings: Option<ImageSettings>

    predicate CanRead(a: Attr) { online && Read(a) !in faults }
    predicate CanWrite(a: Attr) { online && Write(a) !in faults }

    function Readable(): (s: set<Attr>)
      ensures forall a: Attr :: a in s <==> CanRead(a)
    {
      assert forall a: Attr :: a in AllAttrs by { forall a: Attr { AllAttrsComplete(a); } }
      set a | a in AllAttrs && CanRead(a)
    }

    function Writable(): (s: set<Attr>)
      ensures forall a: Attr :: a in s <==> CanWrite(a)
    {
      assert forall a: Attr :: a in AllAttrs by { forall a: Attr { AllAttrsComplete(a); } }
      set a | a in AllAttrs && CanWrite(a)
    }

    /** `Microscope(settings, demo=...)`: without an installed client the
        microscope falls back to demo mode and can reach no instrument. */
    constructor (demo: bool, installed: bool, connected: bool, faults: set<Op>,
                 hw: Hardware, initial: MicroscopeState)
      ensures this.demo == (demo || !installed)
      ensures this.online == (installed && connected)
      ensures this.faults == faults && this.hw == hw && this.state == initial
      ensures cache == map[] && imageSettings == None
    {
      this.demo := demo || !installed;
      this.online := installed && connected;
      this.faults := faults;
      this.hw := hw;
      this.state := initial;
      cache := map[];
      imageSettings := None;
    }

    /** `update_image_settings`: each field in turn is stored in the cache;
        the first missing key raises KeyError and leaves the fields stored
        before it. */
    method UpdateImageSettings(config: Config, ov: Overrides) returns (r: Result<ImageSettings>)
      modifies this`cache, this`imageSettings
      ensures r == Resolve(config, ov)
      ensures cache == old(cache) + ResolveFields(config, ov, Order).0
      ensures imageSettings == if r.Ok? then Some(r.value) else old(imageSettings)
    {
      var i := 0;
      var m: map<Field, Value> := map[];
      while i < |Order|
        invariant 0 <= i <= |Order|
        invariant ResolveFields(config, ov, Order[..i]) == (m, None)
        invariant cache == old(cache) + m
        invariant imageSettings == old(imageSettings)
      {
        var f := Order[i];
        WalkExtends(config, ov, Order, i);
        match ResolveField(config, ov, f)
        case Err(e) =>
          WalkFailsAt(config, ov, Order, i);
          ResolveOfFailedWalk(config, ov);
          return Err(e);
        case Ok(v) =>
          cache := cache[f := v];
          m := m[f := v];
          i := i + 1;
      }
      assert Order[..i] == Order;
      ResolveOfCompleteWalk(config, ov, m);
      var s := Build(m, ov);
      imageSettings := Some(s);
      r := Ok(s);
    }

    /** `set_beam_point`: in demo mode nothing happens; live, the resolution
        is read, the position clamped and normalised and the spot written. */
    method SetBeamPoint(beamX: int, beamY: int) returns (r: Result<Option<(real, real)>>)
      modifies this`hw
      ensures demo ==> r == Ok(None) && hw == old(hw)
      ensures !demo && !CanRead(ScanResolution) ==> r.Err? && hw == old(hw)
      ensures !demo && CanRead(ScanResolution) && ParseResolution(hw.resolution).None? ==> r == Err(ValueError)
      ensures !demo && CanRead(ScanResolution) && ParseResolution(old(hw.resolution)).Some? ==>
        var (w, h) := ParseResolution(old(hw.resolution)).value;
        match BeamSpot(beamX, beamY, w, h)
        case Err(e) => r == Err(e) && hw == old(hw)
        case Ok(p) =>
          if CanWrite(Spot) then r == Ok(Some(p)) && hw == old(hw).(spot := Some(p))
          else r.Err? && hw == old(hw)
      ensures r.Err? ==> hw == old(hw)
    {
      if demo {
        return Ok(None);
      }
      if !CanRead(ScanResolution) {
        return Err(HardwareError("scanning.resolution"));
      }
      match ParseResolution(hw.resolution)
      case None =>
        return Err(ValueError);
      case Some((width, height)) =>
        var spot := BeamSpot(beamX, beamY, width, height);
        if spot.Err? {
          return Err(spot.error);
        }
        if !CanWrite(Spot) {
          return Err(HardwareError("scanning.mode.set_spot"));
        }
        hw := hw.(spot := Some(spot.value));
        return Ok(Some(spot.value));
    }

    /** `beam_blank`: flip the blanking and report the new state. */
    method BeamBlank() returns (r: Result<BlankReply>)
      modifies this`hw
      ensures demo ==> r == Ok(DemoBlank) && hw == old(hw)
      ensures !demo && CanRead(Blanking) && CanWrite(Blanking) ==>
        r == Ok(Blanked(!old(hw.blanked))) && hw == old(hw).(blanked := !old(hw.blanked))
      ensures !demo && !(CanRead(Blanking) && CanWrite(Blanking)) ==> r.Err? && hw == old(hw)
    {
      if demo {
        return Ok(DemoBlank);
      }
      if !CanRead(Blanking) {
        return Err(HardwareError("electron_beam.is_blanked"));
      }
      if !CanWrite(Blanking) {
        return Err(HardwareError(if hw.blanked then "electron_beam.unblank" else "electron_beam.blank"));
      }
      if hw.blanked {
        hw := hw.(blanked := false);
      } else {
        hw := hw.(blanked := true);
      }
      return Ok(Blanked(hw.blanked));
    }

    /** `blank`: blank the beam and report the state (true). */
    method Blank() returns (r: Result<BlankReply>)
      modifies this`hw
      ensures demo ==> r == Ok(DemoBlank) && hw == old(hw)
      ensures !demo && CanWrite(Blanking) ==> hw == old(hw).(blanked := true)
      ensures !demo && CanWrite(Blanking) && CanRead(Blanking) ==> r == Ok(Blanked(true))
      ensures !demo && !(CanWrite(Blanking) && CanRead(Blanking)) ==> r.Err?
      ensures !demo && !CanWrite(Blanking) ==> hw == old(hw)
    {
      if demo {
        return Ok(DemoBlank);
      }
      if !CanWrite(Blanking) {
        return Err(HardwareError("electron_beam.blank"));
      }
      hw := hw.(blanked := true);
      if !CanRead(Blanking) {
        return Err(HardwareError("electron_beam.is_blanked"));
      }
      return Ok(Blanked(hw.blanked));
    }

    /** `unblank`: unblank the beam and report the state (false). */
    method Unblank() returns (r: Result<BlankReply>)
      modifies this`hw
      ensures demo ==> r == Ok(DemoBlank) && hw == old(hw)
      ensures !demo && CanWrite(Blanking) ==> hw == old(hw).(blanked := false)
      ensures !demo && CanWrite(Blanking) && CanRead(Blanking) ==> r == Ok(Blanked(false))
      ensures !demo && !(CanWrite(Blanking) && CanRead(Blanking)) ==> r.Err?
      ensures !demo && !CanWrite(Blanking) ==> hw == old(hw)
    {
      if demo {
        return Ok(DemoBlank);
      }
      if !CanWrite(Blanking) {
        return Err(HardwareError("electron_beam.unblank"));
      }
      hw := hw.(blanked := false);
      if !CanRead(Blanking) {
        return Err(HardwareError("electron_beam.is_blanked"));
      }
      return Ok(Blanked(hw.blanked));
    }

    /** `autocontrast`: live, select the view and run one auto contrast pass. */
    method Autocontrast(quadrant: Value) returns (r: Result<()>)
      modifies this`hw
      ensures demo ==> r == Ok(()) && hw == old(hw)
      ensures !demo && CanWrite(View) && CanWrite(AutoCb) ==>
        r == Ok(()) && hw == old(hw).(activeView := quadrant, autoContrastRuns := old(hw.autoContrastRuns) + 1)
      ensures !demo && !CanWrite(View) ==> r == Err(HardwareError("imaging.set_active_view")) && hw == old(hw)
      ensures !demo && CanWrite(View) && !CanWrite(AutoCb) ==>
        r == Err(HardwareError("auto_functions.run_auto_cb")) && hw == old(hw).(activeView := quadrant)
      ensures hw.(activeView := old(hw.activeView), autoContrastRuns := old(hw.autoContrastRuns)) == old(hw)
    {
      if demo {
        return Ok(());
      }
      if !CanWrite(View) {
        return Err(HardwareError("imaging.set_active_view"));
      }
      hw := hw.(activeView := quadrant);
      if !CanWrite(AutoCb) {
        return Err(HardwareError("auto_functions.run_auto_cb"));
      }
      hw := hw.(autoContrastRuns := hw.autoContrastRuns + 1);
      return Ok(());
    }

    /** `acquire_image(all_settings, hfw)` as written. Live, the grab
        settings are built with the misspelt keyword `drift_correctiion`,
        which raises TypeError after the view, the field width, auto
        contrast and the frame count have been dealt with. */
    method AcquireImage(config: Option<Config>, hfw: Option<real>) returns (r: Result<Image>)
      modifies this`hw, this`cache, this`imageSettings
      ensures demo ==> hw == old(hw)
      ensures demo && config.None? ==> r == Ok(Simulated(768, 512))
      ensures demo && config.Some? ==>
        match Resolve(config.value, map[])
        case Err(e) => r == Err(e)
        case Ok(s) => imageSettings == Some(s)
                      && match DemoShape(Some(s.resolution))
                         case Err(e) => r == Err(e)
                         case Ok((h, w)) => r == Ok(Simulated(h, w))
      ensures config.Some? ==> cache == old(cache) + ResolveFields(config.value, map[], Order).0
      ensures config.None? ==> cache == old(cache) && imageSettings == old(imageSettings)
      ensures config.Some? && Resolve(config.value, map[]).Err? ==>
        r == Err(Resolve(config.value, map[]).error) && hw == old(hw) && imageSettings == old(imageSettings)
      ensures !demo && config.Some? && Resolve(config.value, map[]).Ok? ==>
        var s := Resolve(config.value, map[]).value;
        var p := PrepareGrab(old(hw), s, hfw, Readable(), Writable());
        && hw == p.0
        && imageSettings == Some(if p.1.Ok? then p.1.value else s)
        && r == (if p.1.Err? then Err(p.1.error) else Err(TypeError))
      ensures !demo && config.None? ==>
        hw == old(hw) && r == (if CanRead(Grab) then Ok(GrabbedDefault) else Err(HardwareError("imaging.grab_frame")))
    {
      if demo {
        r := AcquireDemo(config);
        return;
      }
      if config.None? {
        if !CanRead(Grab) {
          return Err(HardwareError("imaging.grab_frame"));
        }
        return Ok(GrabbedDefault);
      }
      var settings :- UpdateImageSettings(config.value, map[]);
      var prepared :- PrepareLive(settings, hfw);
      // the misspelt keyword: `GrabFrameSettings` raises, `grab_frame` is never reached
      var request := GrabFrameSettings(prepared, WrittenDriftKeyword);
      return Err(request.error);
    }

    /** `acquire_image` with the keyword spelled `drift_correction`: live,
        the grab is made with the prepared settings, drift correction
        included. */
    method AcquireImageCorrected(config: Option<Config>, hfw: Option<real>) returns (r: Result<Image>)
      modifies this`hw, this`cache, this`imageSettings
      ensures demo ==> hw == old(hw)
      ensures demo && config.None? ==> r == Ok(Simulated(768, 512))
      ensures demo && config.Some? ==>
        match Resolve(config.value, map[])
        case Err(e) => r == Err(e)
        case Ok(s) => imageSettings == Some(s)
                      && match DemoShape(Some(s.resolution))
                         case Err(e) => r == Err(e)
                         case Ok((h, w)) => r == Ok(Simulated(h, w))
      ensures config.Some? ==> cache == old(cache) + ResolveFields(config.value, map[], Order).0
      ensures config.None? ==> cache == old(cache) && imageSettings == old(imageSettings)
      ensures config.Some? && Resolve(config.value, map[]).Err? ==>
        r == Err(Resolve(config.value, map[]).error) && hw == old(hw) && imageSettings == old(imageSettings)
      ensures !demo && config.Some? && Resolve(config.value, map[]).Ok? ==>
        var s := Resolve(config.value, map[]).value;
        var p := PrepareGrab(old(hw), s, hfw, Readable(), Writable());
        && hw == p.0
        && imageSettings == Some(if p.1.Ok? then p.1.value else s)
        && (p.1.Err? ==> r == Err(p.1.error))
        && (p.1.Ok? && !CanRead(Grab) ==> r == Err(HardwareError("imaging.grab_frame")))
        && (p.1.Ok? && CanRead(Grab) ==>
              (r.Ok? && r.value.Grabbed?
               && r.value.request.driftCorrection == s.driftCorrection
               && Ok(r.value.request.frameIntegration) == NormaliseFrames(s.frameIntegration)
               && r.value.request.resolution == s.resolution && r.value.request.dwellTime == s.dwellTime
               && r.value.request.bitDepth == s.bitDepth))
      ensures !demo && config.None? ==>
        hw == old(hw) && r == (if CanRead(Grab) then Ok(GrabbedDefault) else Err(HardwareError("imaging.grab_frame")))
    {
      if demo {
        r := AcquireDemo(config);
        return;
      }
      if config.None? {
        if !CanRead(Grab) {
          return Err(HardwareError("imaging.grab_frame"));
        }
        return Ok(GrabbedDefault);
      }
      var settings :- UpdateImageSettings(config.value, map[]);
      var prepared :- PrepareLive(settings, hfw);
      var request := GrabFrameSettings(prepared, DriftKeyword).value;
      if !CanRead(Grab) {
        return Err(HardwareError("imaging.grab_frame"));
      }
      return Ok(Grabbed(request));
    }

    /** The demo branch of `acquire_image`: a random image of the shape the
        settings' resolution gives, or 768 x 512 without settings. */
    method AcquireDemo(config: Option<Config>) returns (r: Result<Image>)
      modifies this`cache, this`imageSettings
      ensures config.None? ==> r == Ok(Simulated(768, 512)) && cache == old(cache) && imageSettings == old(imageSettings)
      ensures config.Some? ==>
        cache == old(cache) + ResolveFields(config.value, map[], Order).0
        && match Resolve(config.value, map[])
           case Err(e) => r == Err(e) && imageSettings == old(imageSettings)
           case Ok(s) => imageSettings == Some(s)
                         && match DemoShape(Some(s.resolution))
                            case Err(e) => r == Err(e)
                            case Ok((h, w)) => r == Ok(Simulated(h, w))
    {
      if config.None? {
        return Ok(Simulated(768, 512));
      }
      var settings :- UpdateImageSettings(config.value, map[]);
      var shape :- DemoShape(Some(settings.resolution));
      return Ok(Simulated(shape.0, shape.1));
    }

    /** Select the view, then cap and write the field width, as
        `SelectAndWidth` says. */
    method SetFieldWidth(s: ImageSettings, hfw: Option<real>) returns (w: Result<()>)
      modifies this`hw
      ensures (hw, w) == SelectAndWidth(old(hw), s, hfw, Readable(), Writable())
    {
      if !CanWrite(View) {
        return Err(HardwareError("imaging.set_active_view"));
      }
      hw := hw.(activeView := s.quadrant);
      if !CanRead(HfwLimits) {
        return Err(HardwareError("horizontal_field_width.limits"));
      }
      var fromSettings := 0.0;
      if hfw.None? {
        var n := AsReal(s.horizontalFieldWidth);
        if n.None? {
          return Err(TypeError);
        }
        fromSettings := n.value;
      }
      if !CanWrite(HfwValue) {
        return Err(HardwareError("horizontal_field_width.value"));
      }
      hw := hw.(hfw := EffectiveHfw(hfw, fromSettings, hw.hfwMax));
      return Ok(());
    }

    /** The live accesses of `acquire_image` between resolving the settings
        and building the grab request, as `PrepareGrab` says. The stored
        settings are the object `acquire_image` normalises, so they take the
        new frame count. */
    method PrepareLive(s: ImageSettings, hfw: Option<real>) returns (p: Result<ImageSettings>)
      requires !demo
      modifies this`hw, this`imageSettings
      ensures (hw, p) == PrepareGrab(old(hw), s, hfw, Readable(), Writable())
      ensures imageSettings == if p.Ok? then Some(p.value) else old(imageSettings)
    {
      var w := SetFieldWidth(s, hfw);
      if w.Err? {
        return Err(w.error);
      }
      p := ContrastAndFramesLive(s);
      if p.Ok? {
        imageSettings := Some(p.value);
      }
    }

    /** Auto contrast when the settings ask, then the frame count, as
        `ContrastAndFrames` says. */
    method ContrastAndFramesLive(s: ImageSettings) returns (p: Result<ImageSettings>)
      requires !demo && CanWrite(View) && hw.activeView == s.quadrant
      modifies this`hw
      ensures (hw, p) == ContrastAndFrames(old(hw), s, Writable())
    {
      if EqualsTrue(s.autocontrast) {
        var _ :- Autocontrast(s.quadrant);
      }
      var frames :- NormaliseFrames(s.frameIntegration);
      return Ok(s.(frameIntegration := frames));
    }

    /** `last_image(quadrant)`: live, the view's latest frame; demo, a
        simulated 512 x 768 image. */
    method LastImage(quadrant: Value) returns (r: Result<Image>)
      modifies this`hw
      ensures demo ==> r == Ok(Simulated(LastImageShape.0, LastImageShape.1)) && hw == old(hw)
      ensures !demo && CanWrite(View) && CanRead(LastFrame) ==> r == Ok(LastOf(quadrant))
      ensures !demo && !(CanWrite(View) && CanRead(LastFrame)) ==> r.Err?
      ensures !demo && CanWrite(View) ==> hw == old(hw).(activeView := quadrant)
      ensures !demo && !CanWrite(View) ==> hw == old(hw)
    {
      if demo {
        return Ok(Simulated(LastImageShape.0, LastImageShape.1));
      }
      if !CanWrite(View) {
        return Err(HardwareError("imaging.set_active_view"));
      }
      hw := hw.(activeView := quadrant);
      if !CanRead(LastFrame) {
        return Err(HardwareError("imaging.get_image"));
      }
      return Ok(LastOf(quadrant));
    }

    /** `update_stage_position`: the stage position, or on failure a random
        one; either way it is stored in the state. */
    method UpdateStagePosition() returns (pos: Position)
      modifies this`state
      ensures CanRead(Stage) ==> pos == hw.stage
      ensures !CanRead(Stage) ==> RandomPosition(pos)
      ensures state == old(state).(x := pos.x, y := pos.y, z := pos.z, t := pos.t, r := pos.r)
    {
      if CanRead(Stage) {
        pos := hw.stage;
      } else {
        assert RandomPosition(Position(0.0, 0.0, 0.0, 0.0, 0.0));
        pos :| RandomPosition(pos);
      }
      state := state.(x := pos.x, y := pos.y, z := pos.z, t := pos.t, r := pos.r);
    }

    /** One read of `_get_current_microscope_state`: copy the attribute, or
        on failure write the fallback and stop. `rest` is the list of reads
        still to make, `goal` the state the whole capture ends in. */
    method ReadNext(a: Attr, ghost rest: seq<Attr>, ghost goal: MicroscopeState) returns (ok: bool)
      requires rest != [] && rest[0] == a
      requires goal == CaptureReads(state, hw, Readable(), rest)
      modifies this`state
      ensures ok ==> goal == CaptureReads(state, hw, Readable(), rest[1..])
      ensures !ok ==> goal == state
    {
      ok := CanRead(a);
      if ok {
        state := Assign(state, a, hw);
      } else {
        state := Fallback(state);
      }
    }

    /** Three consecutive reads of `_get_current_microscope_state`, from
        position `k` of the capture order on. */
    method ReadThree(k: nat, ghost goal: MicroscopeState) returns (ok: bool)
      requires k + 3 <= |CaptureOrder|
      requires goal == CaptureReads(state, hw, Readable(), CaptureOrder[k..])
      modifies this`state
      ensures ok ==> goal == CaptureReads(state, hw, Readable(), CaptureOrder[k + 3..])
      ensures !ok ==> goal == state
    {
      assert CaptureOrder[k..][1..] == CaptureOrder[k + 1..];
      assert CaptureOrder[k + 1..][1..] == CaptureOrder[k + 2..];
      assert CaptureOrder[k + 2..][1..] == CaptureOrder[k + 3..];
      ok := ReadNext(CaptureOrder[k], CaptureOrder[k..], goal);
      if !ok { return; }
      ok := ReadNext(CaptureOrder[k + 1], CaptureOrder[k + 1..], goal);
      if !ok { return; }
      ok := ReadNext(CaptureOrder[k + 2], CaptureOrder[k + 2..], goal);
    }

    /** `_get_current_microscope_state`: the stage position, then the nine
        reads in order; the first read that raises ends the capture in the
        fallback state. */
    method CaptureState() returns (s: MicroscopeState, ghost pos: Position)
      modifies this`state
      ensures CanRead(Stage) ==> pos == hw.stage
      ensures !CanRead(Stage) ==> RandomPosition(pos)
      ensures state == Capture(old(state), pos, hw, Readable())
      ensures s == state
    {
      pos := UpdateStagePosition();
      ghost var goal := Capture(old(state), pos, hw, Readable());
      var ok := ReadThree(0, goal);
      if ok {
        ok := ReadThree(3, goal);
      }
      if ok {
        ok := ReadThree(6, goal);
        assert ok ==> CaptureOrder[9..] == [];
      }
      s := state;
    }

    /** `set_scan_rotation`: write the wrapped angle, capture the state and
        return the angle read back; an access that raises returns the angle
        as it stood then. */
    method SetScanRotation(angle: real, mode: string) returns (result: real, ghost pos: Position)
      modifies this`hw, this`state
      ensures var o := ScanRotation(old(hw), angle, mode, Readable(), Writable());
              o.Raised? ==> result == o.result && hw == old(hw) && state == old(state)
      ensures var o := ScanRotation(old(hw), angle, mode, Readable(), Writable());
              o.Proceeded? ==> hw == o.after && state == Capture(old(state), pos, hw, Readable())
                               && result == (if CanRead(Rotation) then hw.rotation else o.fallback)
      ensures var o := ScanRotation(old(hw), angle, mode, Readable(), Writable());
              o.Proceeded? && CanRead(Stage) ==> pos == old(hw).stage
      ensures var o := ScanRotation(old(hw), angle, mode, Readable(), Writable());
              o.Proceeded? && !CanRead(Stage) ==> RandomPosition(pos)
    {
      pos := hw.stage;
      var proceed, rotationAngle := WriteRotation(angle, mode);
      if !proceed {
        return rotationAngle, pos;
      }
      var captured;
      captured, pos := CaptureState();
      if !CanRead(Rotation) {
        return rotationAngle, pos;
      }
      result := hw.rotation;
    }

    /** The part of `set_scan_rotation` before the capture: read the limits,
        compute the target and write it. `proceed` is false when an access
        raised, and `angle` is then what the method returns. */
    method WriteRotation(angle: real, mode: string) returns (proceed: bool, rotationAngle: real)
      modifies this`hw
      ensures var o := ScanRotation(old(hw), angle, mode, Readable(), Writable());
              proceed == o.Proceeded?
              && (o.Raised? ==> rotationAngle == o.result && hw == old(hw))
              && (o.Proceeded? ==> rotationAngle == o.fallback && hw == o.after)
    {
      if !CanRead(RotationLimits) {
        return false, angle;
      }
      rotationAngle := angle;
      if mode == "Relative" {
        if !CanRead(Rotation) {
          return false, angle;
        }
        var target := WrapRotation(hw.rotation + angle, hw.rotMin, hw.rotMax);
        if !CanWrite(Rotation) {
          return false, angle;
        }
        hw := hw.(rotation := target);
      } else if mode == "Absolute" {
        rotationAngle := WrapRotation(angle, hw.rotMin, hw.rotMax);
        if !CanWrite(Rotation) {
          return false, rotationAngle;
        }
        hw := hw.(rotation := rotationAngle);
      }
      proceed := true;
    }

    /** `set_beam_shift`: write the shift and capture the state; a write
        that raises changes nothing. */
    method SetBeamShift(shiftX: real, shiftY: real) returns (ghost pos: Position)
      modifies this`hw, this`state
      ensures !CanWrite(BeamShift) ==> hw == old(hw) && state == old(state)
      ensures CanWrite(BeamShift) ==>
                hw == old(hw).(beamShiftX := shiftX, beamShiftY := shiftY)
                && state == Capture(old(state), pos, hw, Readable())
      ensures CanWrite(BeamShift) && CanRead(Stage) ==> pos == old(hw).stage
      ensures CanWrite(BeamShift) && !CanRead(Stage) ==> RandomPosition(pos)
    {
      pos := hw.stage;
      if !CanWrite(BeamShift) {
        return;
      }
      hw := hw.(beamShiftX := shiftX, beamShiftY := shiftY);
      var captured;
      captured, pos := CaptureState();
    }

    /** `reset_beam_shifts`: read the shift (for the message), write zero,
        and capture the state whether or not that succeeded. */
    method ResetBeamShifts() returns (ghost pos: Position)
      modifies this`hw, this`state
      ensures hw == if CanRead(BeamShift) && CanWrite(BeamShift)
                    then old(hw).(beamShiftX := 0.0, beamShiftY := 0.0) else old(hw)
      ensures state == Capture(old(state), pos, hw, Readable())
      ensures CanRead(BeamShift) && CanWrite(BeamShift) && (forall a :: a in CaptureOrder ==> CanRead(a))
              ==> state.beamShiftX == 0.0 && state.beamShiftY == 0.0
      ensures CanRead(Stage) ==> pos == old(hw).stage
      ensures !CanRead(Stage) ==> RandomPosition(pos)
    {
      if CanRead(BeamShift) && CanWrite(BeamShift) {
        hw := hw.(beamShiftX := 0.0, beamShiftY := 0.0);
      }
      var captured;
      captured, pos := CaptureState();
      if forall a :: a in CaptureOrder ==> CanRead(a) {
        CaptureSucceeds(old(state), pos, hw, Readable());
      }
    }

    /** `_restore_microscope_state` as written: the read of the misspelt
        `state.brighness` raises after the third write. */
    method RestoreStateAsWritten(s: MicroscopeState)
      modifies this`hw
      ensures hw == RestoreAsWritten(old(hw), s, Writable())
    {
      if !CanWrite(HfwValue) { return; }
      hw := hw.(hfw := s.hfw);
      if !CanWrite(ScanResolution) { return; }
      hw := hw.(resolution := s.resolution);
      if !CanWrite(Rotation) { return; }
      hw := hw.(rotation := s.scanRotation);
    }

    /** `_restore_microscope_state` with the attribute spelled `brightness`:
        six writes in order, the first that raises ending the restore. */
    method RestoreState(s: MicroscopeState)
      modifies this`hw
      ensures hw == Restore(old(hw), s, Writable())
      ensures hw.stage == old(hw.stage)
      ensures (forall a :: a in CaptureOrder ==> CanWrite(a)) ==> Restored(hw, s)
    {
      RestoreStateAsWritten(s);
      if !CanWrite(HfwValue) || !CanWrite(ScanResolution) || !CanWrite(Rotation) { return; }
      if !CanWrite(Brightness) { return; }
      hw := hw.(brightness := s.brightness);
      if !CanWrite(Contrast) { return; }
      hw := hw.(contrast := s.contrast);
      if !CanWrite(BeamShift) { return; }
      hw := hw.(beamShiftX := s.beamShiftX, beamShiftY := s.beamShiftY);
    }
  }
}
