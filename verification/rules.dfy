/** The decision rules inside `Microscope`: the hardware record the methods
    read and write, and the pure parts of each operation (beam-spot
    normalisation, field-width and frame-integration choice, scan-rotation
    wrap, demo image shapes, state capture and restore). */
module Rules {
  import opened Base
  import opened Text
  import opened Settings

  /** `np.pi`; every angle is a real number of radians. */
  const Pi: real := 3.141592653589793
  const TwoPi: real := 2.0 * Pi

  datatype Position = Position(x: real, y: real, z: real, t: real, r: real)

  /** The instrument as the Autoscript client exposes it. */
  datatype Hardware = Hardware(
    blanked: bool,
    hfw: real, hfwMax: real,
    rotation: real, rotMin: real, rotMax: real,
    beamShiftX: real, beamShiftY: real,
    resolution: string,
    stage: Position,
    workingDistance: real, highVoltage: real, beamCurrent: real,
    brightness: real, contrast: real,
    activeView: Value,
    spot: Option<(real, real)>,
    autoContrastRuns: nat)

  /** The attributes of the client an operation reads or writes. */
  datatype Attr =
    | Stage | WorkingDistance | HfwValue | HfwLimits | ScanResolution | HighVoltage
    | BeamCurrent | Rotation | RotationLimits | Brightness | Contrast | BeamShift
    | Blanking | View | Spot | AutoCb | Grab | LastFrame

  datatype Op = Read(attr: Attr) | Write(attr: Attr)

  /** `MicroscopeState`: the last known state of the instrument. */
  datatype MicroscopeState = MicroscopeState(
    x: real, y: real, z: real, t: real, r: real,
    workingDistance: real, hfw: real, resolution: string,
    highVoltage: real, beamCurrent: real, scanRotation: real,
    brightness: real, contrast: real, beamShiftX: real, beamShiftY: real)

  // ---------------------------------------------------------------- beam spot

  /** A pixel coordinate above the scan dimension is replaced by it; below
      zero nothing happens. */
  function ClampPixel(p: int, dim: int): (q: int)
    ensures q <= dim && q <= p
    ensures p <= dim ==> q == p
    ensures p > dim ==> q == dim
  {
    if p > dim then dim else p
  }

  /** `set_beam_point`'s conversion of a pixel position into the spot
      coordinates written to the scanner. */
  function BeamSpot(beamX: int, beamY: int, width: int, height: int): (r: Result<(real, real)>)
    ensures r.Err? <==> width == 0 || height == 0
    ensures r.Err? ==> r.error == ZeroDivisionError
    ensures r.Ok? ==> (r.value.0 * width as real == ClampPixel(beamX, width) as real
                   && r.value.1 * height as real == ClampPixel(beamY, height) as real)
  {
    if width == 0 || height == 0 then Err(ZeroDivisionError)
    else Ok((ClampPixel(beamX, width) as real / width as real,
             ClampPixel(beamY, height) as real / height as real))
  }

  /** A ratio of a non-negative number to a larger positive one is a
      fraction; used by `SpotInUnitSquare` for each coordinate of the spot. */
  lemma Fraction(a: real, b: real)
    requires 0.0 < b && 0.0 <= a <= b
    ensures 0.0 <= a / b <= 1.0
  {
    var q := a / b;
    assert q * b == a;
    assert (1.0 - q) * b == b - a;
  }

  /** For a non-negative pixel position and a positive resolution the spot
      lies in the unit square. */
  lemma SpotInUnitSquare(beamX: int, beamY: int, width: int, height: int)
    requires 0 <= beamX && 0 <= beamY && 0 < width && 0 < height
    ensures BeamSpot(beamX, beamY, width, height).Ok?
    ensures var (x, y) := BeamSpot(beamX, beamY, width, height).value;
            0.0 <= x <= 1.0 && 0.0 <= y <= 1.0
  {
    Fraction(ClampPixel(beamX, width) as real, width as real);
    Fraction(ClampPixel(beamY, height) as real, height as real);
  }

  /** A position beyond the resolution lands on the far edge: 1.0. */
  lemma SpotBeyondEdge(beamX: int, width: int, height: int)
    requires 0 < width <= beamX && height != 0
    ensures BeamSpot(beamX, 0, width, height).Ok? && BeamSpot(beamX, 0, width, height).value.0 == 1.0
  {
    var w := width as real;
    assert ClampPixel(beamX, width) as real == w;
    assert w / w == 1.0;
  }

  /** Negative positions are not clamped: the spot leaves the unit square. */
  lemma NegativeSpotNotClamped(beamX: int, beamY: int, width: int, height: int)
    requires beamX < 0 && 0 < width && height != 0
    ensures BeamSpot(beamX, beamY, width, height).Ok? && BeamSpot(beamX, beamY, width, height).value.0 < 0.0
  {
    var x := BeamSpot(beamX, beamY, width, height).value.0;
    assert x * width as real == beamX as real;
  }

  // ------------------------------------------------------- acquisition rules

  /** The field width `acquire_image` writes: the argument when given, else
      the settings' value, then capped at the instrument's maximum. */
  function EffectiveHfw(argument: Option<real>, fromSettings: real, hfwMax: real): (h: real)
    ensures h <= hfwMax
    ensures var wanted := if argument.Some? then argument.value else fromSettings;
            h == (if wanted <= hfwMax then wanted else hfwMax)
  {
    var wanted := if argument.Some? then argument.value else fromSettings;
    if wanted > hfwMax then hfwMax else wanted
  }

  /** Only the upper limit is enforced, and an already capped width is kept. */
  lemma EffectiveHfwKeepsAdmissible(argument: Option<real>, fromSettings: real, hfwMax: real)
    ensures EffectiveHfw(Some(EffectiveHfw(argument, fromSettings, hfwMax)), fromSettings, hfwMax)
         == EffectiveHfw(argument, fromSettings, hfwMax)
    ensures argument.Some? && argument.value <= hfwMax ==> EffectiveHfw(argument, fromSettings, hfwMax) == argument.value
    ensures argument.None? ==> EffectiveHfw(argument, fromSettings, hfwMax) == EffectiveHfw(Some(fromSettings), 0.0, hfwMax)
  {
  }

  /** `if settings.frame_integration <= 0: settings.frame_integration = 1`;
      a value Python cannot compare with 0 raises TypeError. */
  function NormaliseFrames(v: Value): (r: Result<Value>)
    ensures r.Ok? <==> AsReal(v).Some?
    ensures r.Err? ==> r.error == TypeError
    ensures r.Ok? ==> AsReal(r.value).Some? && AsReal(r.value).value > 0.0
    ensures r.Ok? && AsReal(v).value > 0.0 ==> r.value == v
    ensures r.Ok? && AsReal(v).value <= 0.0 ==> r.value == VInt(1)
  {
    match AsReal(v)
    case None => Err(TypeError)
    case Some(n) => if n <= 0.0 then Ok(VInt(1)) else Ok(v)
  }

  /** On the integer counts the spin box produces: `max(n, 1)`, and a second
      pass changes nothing. */
  lemma FramesAtLeastOne(n: int)
    ensures NormaliseFrames(VInt(n)) == Ok(VInt(if n <= 0 then 1 else n))
    ensures NormaliseFrames(NormaliseFrames(VInt(n)).value) == NormaliseFrames(VInt(n))
  {
  }

  /** The shape `(height, width)` of the demo image `acquire_image` returns:
      from the settings' "WxH" resolution, or `(768, 512)` without settings. */
  function DemoShape(resolution: Option<Value>): Result<(int, int)>
  {
    match resolution
    case None => Ok((768, 512))
    case Some(VStr(s)) =>
      (match ParseResolution(s)
       case None => Err(ValueError)
       case Some((w, h)) => if w < 0 || h < 0 then Err(ValueError) else Ok((h, w)))
    case Some(_) => Err(AttributeError)
  }

  /** The demo `last_image` shape never depends on anything. */
  const LastImageShape: (int, int) := (512, 768)

  /** A resolution written as "WxH" gives a demo image of `H` rows of `W` pixels. */
  lemma DemoShapeOfResolution(width: nat, height: nat)
    ensures DemoShape(Some(VStr(FormatResolution(width, height)))) == Ok((height, width))
  {
    ResolutionRoundTrip(width, height);
  }

  lemma DemoShape768x512()
    ensures DemoShape(Some(VStr("768x512"))) == Ok((512, 768))
  {
    assert FormatResolution(768, 512) == "768x512" by {
      NatToStringRoundTrip(768);
      assert NatToString(768) == "768";
      assert NatToString(512) == "512";
    }
    DemoShapeOfResolution(768, 512);
  }

  /** The accesses `acquire_image` makes between resolving the settings `s`
      and building the grab request: select the view, cap and write the
      field width, run auto contrast when the settings ask, normalise the
      frame count. The instrument as these accesses leave it, and the
      settings with the normalised count or the exception that ended them. */
  function PrepareGrab(hw: Hardware, s: ImageSettings, hfw: Option<real>, readable: set<Attr>, writable: set<Attr>)
    : (p: (Hardware, Result<ImageSettings>))
    ensures p.1.Ok? <==>
              (View in writable && HfwLimits in readable
               && (hfw.Some? || AsReal(s.horizontalFieldWidth).Some?)
               && HfwValue in writable
               && (EqualsTrue(s.autocontrast) ==> AutoCb in writable)
               && AsReal(s.frameIntegration).Some?)
    ensures p.1.Ok? ==>
              p.1.value == s.(frameIntegration := NormaliseFrames(s.frameIntegration).value)
              && p.0 == hw.(activeView := s.quadrant,
                            hfw := EffectiveHfw(hfw, if hfw.Some? then 0.0 else AsReal(s.horizontalFieldWidth).value, hw.hfwMax),
                            autoContrastRuns := hw.autoContrastRuns + (if EqualsTrue(s.autocontrast) then 1 else 0))
    ensures p.1.Err? && View in writable && HfwLimits in readable && hfw.None? && AsReal(s.horizontalFieldWidth).None? ==>
              p.1.error == TypeError && p.0 == hw.(activeView := s.quadrant)
    ensures p.0 == hw.(activeView := p.0.activeView, hfw := p.0.hfw, autoContrastRuns := p.0.autoContrastRuns)
    ensures p.0.hfw == hw.hfw || p.0.hfw <= hw.hfwMax
    ensures p.0.autoContrastRuns <= hw.autoContrastRuns + 1
  {
    var (h2, w) := SelectAndWidth(hw, s, hfw, readable, writable);
    if w.Err? then (h2, Err(w.error)) else ContrastAndFrames(h2, s, writable)
  }

  /** The last accesses of `PrepareGrab`, the view already selected: auto
      contrast when the settings ask, then the frame count. */
  function ContrastAndFrames(hw: Hardware, s: ImageSettings, writable: set<Attr>): (p: (Hardware, Result<ImageSettings>))
    ensures p.1.Ok? <==> (EqualsTrue(s.autocontrast) ==> AutoCb in writable) && AsReal(s.frameIntegration).Some?
    ensures p.1.Ok? ==> p.1.value == s.(frameIntegration := NormaliseFrames(s.frameIntegration).value)
    ensures p.0 == hw.(autoContrastRuns := p.0.autoContrastRuns)
    ensures p.0.autoContrastRuns == hw.autoContrastRuns + (if EqualsTrue(s.autocontrast) && AutoCb in writable then 1 else 0)
  {
    if EqualsTrue(s.autocontrast) && AutoCb !in writable then (hw, Err(HardwareError("auto_functions.run_auto_cb")))
    else
      var h3 := if EqualsTrue(s.autocontrast) then hw.(autoContrastRuns := hw.autoContrastRuns + 1) else hw;
      match NormaliseFrames(s.frameIntegration)
      case Err(e) => (h3, Err(e))
      case Ok(f) => (h3, Ok(s.(frameIntegration := f)))
  }

  /** The first accesses of `PrepareGrab`: select the view, read the limit,
      write the capped field width. */
  function SelectAndWidth(hw: Hardware, s: ImageSettings, hfw: Option<real>, readable: set<Attr>, writable: set<Attr>)
    : (p: (Hardware, Result<()>))
    ensures p.1.Ok? <==>
              (View in writable && HfwLimits in readable
               && (hfw.Some? || AsReal(s.horizontalFieldWidth).Some?) && HfwValue in writable)
    ensures p.1.Ok? ==>
              p.0 == hw.(activeView := s.quadrant,
                         hfw := EffectiveHfw(hfw, if hfw.Some? then 0.0 else AsReal(s.horizontalFieldWidth).value, hw.hfwMax))
    ensures p.1.Err? && View in writable && HfwLimits in readable && hfw.None? && AsReal(s.horizontalFieldWidth).None? ==>
              p.1.error == TypeError && p.0 == hw.(activeView := s.quadrant)
    ensures p.0 == hw.(activeView := p.0.activeView, hfw := p.0.hfw)
    ensures p.0.hfw == hw.hfw || p.0.hfw <= hw.hfwMax
  {
    if View !in writable then (hw, Err(HardwareError("imaging.set_active_view")))
    else
      var h1 := hw.(activeView := s.quadrant);
      if HfwLimits !in readable then (h1, Err(HardwareError("horizontal_field_width.limits")))
      else if hfw.None? && AsReal(s.horizontalFieldWidth).None? then (h1, Err(TypeError))
      else
        var fromSettings := if hfw.Some? then 0.0 else AsReal(s.horizontalFieldWidth).value;
        if HfwValue !in writable then (h1, Err(HardwareError("horizontal_field_width.value")))
        else (h1.(hfw := EffectiveHfw(hfw, fromSettings, h1.hfwMax)), Ok(()))
  }

  /** What `grab_frame` is asked for. */
  datatype GrabRequest = GrabRequest(resolution: Value, dwellTime: Value, bitDepth: Value,
                                     driftCorrection: Value, frameIntegration: Value)

  /** The keyword `acquire_image` passes the drift correction under, as written. */
  const WrittenDriftKeyword: string := "drift_correctiion"
  /** The keyword `GrabFrameSettings` declares for it. */
  const DriftKeyword: string := "drift_correction"

  /** `GrabFrameSettings(resolution=.., dwell_time=.., bit_depth=..,
      <driftKeyword>=.., frame_integration=..)` from the settings: a keyword
      the constructor does not declare raises TypeError. */
  function GrabFrameSettings(s: ImageSettings, driftKeyword: string): (r: Result<GrabRequest>)
    ensures r.Ok? <==> driftKeyword == DriftKeyword
    ensures r.Err? ==> r.error == TypeError
    ensures r.Ok? ==> r.value.resolution == s.resolution && r.value.dwellTime == s.dwellTime
                      && r.value.bitDepth == s.bitDepth && r.value.driftCorrection == s.driftCorrection
                      && r.value.frameIntegration == s.frameIntegration
  {
    if driftKeyword == DriftKeyword
    then Ok(GrabRequest(s.resolution, s.dwellTime, s.bitDepth, s.driftCorrection, s.frameIntegration))
    else Err(TypeError)
  }

  /** As written, the grab settings can never be built. */
  lemma WrittenKeywordRaises(s: ImageSettings)
    ensures GrabFrameSettings(s, WrittenDriftKeyword) == Err(TypeError)
  {
  }

  // ----------------------------------------------------------- scan rotation

  /** Python's float `x % (2*np.pi)`: the remainder takes the divisor's sign. */
  function Mod2Pi(x: real): (r: real)
    ensures 0.0 <= r < TwoPi
    ensures var k := (x - r) / TwoPi; k == k.Floor as real
  {
    var q := x / TwoPi;
    var f := q.Floor as real;
    assert x == q * TwoPi;
    assert 0.0 <= q - f < 1.0;
    assert x - f * TwoPi == (q - f) * TwoPi;
    assert (x - (x - f * TwoPi)) / TwoPi == f;
    x - f * TwoPi
  }

  /** Angles already in `[0, 2π)` are their own remainder. */
  lemma {:induction false} Mod2PiFixesRange(x: real)
    requires 0.0 <= x < TwoPi
    ensures Mod2Pi(x) == x
  {
    var q := x / TwoPi;
    assert x == q * TwoPi;
    assert 0.0 <= q < 1.0;
    assert q.Floor == 0;
  }

  /** A target at or beyond either limit is replaced by its remainder modulo 2π;
      one strictly inside the limits is written unchanged. */
  function WrapRotation(target: real, rotMin: real, rotMax: real): (a: real)
    ensures rotMin < target < rotMax ==> a == target
    ensures !(rotMin < target < rotMax) ==> 0.0 <= a < TwoPi && a == Mod2Pi(target)
  {
    if target >= rotMax then Mod2Pi(target)
    else if target <= rotMin then Mod2Pi(target)
    else target
  }

  /** For limits inside `[-2π, 2π]` the written angle lies in `(-2π, 2π)`. */
  lemma WrapWithinTwoPi(target: real, rotMin: real, rotMax: real)
    requires -TwoPi <= rotMin && rotMax <= TwoPi
    ensures -TwoPi < WrapRotation(target, rotMin, rotMax) < TwoPi
  {
  }

  /** Wrapping a written angle again writes the same angle. */
  lemma WrapIdempotent(target: real, rotMin: real, rotMax: real)
    ensures WrapRotation(WrapRotation(target, rotMin, rotMax), rotMin, rotMax) == WrapRotation(target, rotMin, rotMax)
  {
    var a := WrapRotation(target, rotMin, rotMax);
    if !(rotMin < target < rotMax) && !(rotMin < a < rotMax) {
      Mod2PiFixesRange(a);
    }
  }

  /** How `set_scan_rotation` ends before its state capture: an access
      raised and the method returns `result`, or it went on with the
      instrument now `after`, returning `fallback` if the final read of the
      angle raises. */
  datatype RotationOutcome = Raised(result: real) | Proceeded(after: Hardware, fallback: real)

  /** `set_scan_rotation(angle, type=mode)` up to the state capture. The
      limits are read first; "Relative" adds the current angle, "Absolute"
      uses the angle as given, any other mode writes nothing. */
  function ScanRotation(hw: Hardware, angle: real, mode: string, readable: set<Attr>, writable: set<Attr>): (o: RotationOutcome)
    ensures RotationLimits !in readable ==> o == Raised(angle)
    ensures o.Proceeded? ==> o.after == hw.(rotation := o.after.rotation)
    ensures mode == "Relative" && o.Proceeded? ==>
              o.after.rotation == WrapRotation(hw.rotation + angle, hw.rotMin, hw.rotMax) && o.fallback == angle
    ensures mode == "Relative" && o.Raised? ==> o.result == angle
    ensures mode == "Absolute" && o.Proceeded? ==>
              o.after.rotation == WrapRotation(angle, hw.rotMin, hw.rotMax) && o.fallback == o.after.rotation
    ensures mode == "Absolute" && o.Raised? && RotationLimits in readable ==>
              o.result == WrapRotation(angle, hw.rotMin, hw.rotMax)
    ensures o.Proceeded? <==>
              (RotationLimits in readable
               && (mode == "Relative" ==> Rotation in readable && Rotation in writable)
               && (mode == "Absolute" ==> Rotation in writable))
    ensures mode != "Relative" && mode != "Absolute" && o.Proceeded? ==> o == Proceeded(hw, angle)
  {
    if RotationLimits !in readable then Raised(angle)
    else if mode == "Relative" then
      if Rotation !in readable then Raised(angle)
      else
        var target := WrapRotation(hw.rotation + angle, hw.rotMin, hw.rotMax);
        if Rotation !in writable then Raised(angle) else Proceeded(hw.(rotation := target), angle)
    else if mode == "Absolute" then
      var target := WrapRotation(angle, hw.rotMin, hw.rotMax);
      if Rotation !in writable then Raised(target) else Proceeded(hw.(rotation := target), target)
    else Proceeded(hw, angle)
  }

  /** A written angle is strictly inside the limits or a remainder in
      `[0, 2π)`; an unknown mode leaves the instrument as it was. */
  lemma ScanRotationInRange(hw: Hardware, angle: real, mode: string, readable: set<Attr>, writable: set<Attr>)
    ensures var o := ScanRotation(hw, angle, mode, readable, writable);
            o.Proceeded? && (mode == "Relative" || mode == "Absolute") ==>
              (hw.rotMin < o.after.rotation < hw.rotMax) || (0.0 <= o.after.rotation < TwoPi)
    ensures var o := ScanRotation(hw, angle, mode, readable, writable);
            o.Proceeded? && mode != "Relative" && mode != "Absolute" ==> o.after == hw
  {
  }

  /** A relative turn by zero from an angle strictly inside the limits
      writes that same angle back. */
  lemma RelativeZeroKeepsAngle(hw: Hardware, readable: set<Attr>, writable: set<Attr>)
    requires hw.rotMin < hw.rotation < hw.rotMax
    requires {RotationLimits, Rotation} <= readable && Rotation in writable
    ensures ScanRotation(hw, 0.0, "Relative", readable, writable) == Proceeded(hw, 0.0)
  {
  }

  /** Setting, as an absolute angle, the angle an absolute set wrote writes
      nothing new. */
  lemma AbsoluteIdempotent(hw: Hardware, angle: real, readable: set<Attr>, writable: set<Attr>)
    requires RotationLimits in readable && Rotation in writable
    ensures var o := ScanRotation(hw, angle, "Absolute", readable, writable);
            o.Proceeded? &&
            ScanRotation(o.after, o.after.rotation, "Absolute", readable, writable) == o
  {
    WrapIdempotent(angle, hw.rotMin, hw.rotMax);
  }

  // ------------------------------------------------------- state capture

  /** The reads of `_get_current_microscope_state` after the stage position,
      in source order. */
  const CaptureOrder: seq<Attr> := [WorkingDistance, HfwValue, ScanResolution, HighVoltage,
    BeamCurrent, Rotation, Brightness, Contrast, BeamShift]

  /** One successful read copies the attribute into the state. */
  function Assign(s: MicroscopeState, a: Attr, hw: Hardware): MicroscopeState
  {
    match a
    case WorkingDistance => s.(workingDistance := hw.workingDistance)
    case HfwValue => s.(hfw := hw.hfw)
    case ScanResolution => s.(resolution := hw.resolution)
    case HighVoltage => s.(highVoltage := hw.highVoltage)
    case BeamCurrent => s.(beamCurrent := hw.beamCurrent)
    case Rotation => s.(scanRotation := hw.rotation)
    case Brightness => s.(brightness := hw.brightness)
    case Contrast => s.(contrast := hw.contrast)
    case BeamShift => s.(beamShiftX := hw.beamShiftX, beamShiftY := hw.beamShiftY)
    case _ => s
  }

  /** The `except` branch: a fixed position and rotation, the rest as it is. */
  function Fallback(s: MicroscopeState): (f: MicroscopeState)
    ensures f.x == 2.0 && f.y == 1.0 && f.z == 0.0 && f.t == 0.0 && f.r == 0.0 && f.scanRotation == 0.0
  {
    s.(x := 2.0, y := 1.0, z := 0.0, t := 0.0, r := 0.0, scanRotation := 0.0)
  }

  /** The reads `attrs` in order; the first unreadable one ends the capture in
      the fallback. */
  function CaptureReads(s: MicroscopeState, hw: Hardware, readable: set<Attr>, attrs: seq<Attr>): MicroscopeState
    decreases |attrs|
  {
    if attrs == [] then s
    else if attrs[0] in readable then CaptureReads(Assign(s, attrs[0], hw), hw, readable, attrs[1..])
    else Fallback(s)
  }

  /** The whole capture: the stage position first, then the other reads. */
  function Capture(prev: MicroscopeState, pos: Position, hw: Hardware, readable: set<Attr>): MicroscopeState
  {
    CaptureReads(prev.(x := pos.x, y := pos.y, z := pos.z, t := pos.t, r := pos.r), hw, readable, CaptureOrder)
  }

  /** The state of an instrument whose every read succeeds. */
  function Snapshot(pos: Position, hw: Hardware): MicroscopeState
  {
    MicroscopeState(pos.x, pos.y, pos.z, pos.t, pos.r, hw.workingDistance, hw.hfw, hw.resolution,
      hw.highVoltage, hw.beamCurrent, hw.rotation, hw.brightness, hw.contrast, hw.beamShiftX, hw.beamShiftY)
  }

  lemma CaptureSucceeds(prev: MicroscopeState, pos: Position, hw: Hardware, readable: set<Attr>)
    requires forall i :: 0 <= i < |CaptureOrder| ==> CaptureOrder[i] in readable
    ensures Capture(prev, pos, hw, readable) == Snapshot(pos, hw)
  {
    var s0 := prev.(x := pos.x, y := pos.y, z := pos.z, t := pos.t, r := pos.r);
    assert CaptureOrder[0..] == CaptureOrder;
    var s3 := CaptureThree(s0, hw, readable, 0);
    var s6 := CaptureThree(s3, hw, readable, 3);
    var s9 := CaptureThree(s6, hw, readable, 6);
    assert CaptureOrder[9..] == [];
  }

  /** Three successful reads from position `k` of the capture order: the
      capture goes on from the updated state `s'` with the rest of the order. */
  lemma CaptureThree(s: MicroscopeState, hw: Hardware, readable: set<Attr>, k: nat) returns (s': MicroscopeState)
    requires k + 3 <= |CaptureOrder|
    requires CaptureOrder[k] in readable && CaptureOrder[k + 1] in readable && CaptureOrder[k + 2] in readable
    ensures s' == Assign(Assign(Assign(s, CaptureOrder[k], hw), CaptureOrder[k + 1], hw), CaptureOrder[k + 2], hw)
    ensures CaptureReads(s, hw, readable, CaptureOrder[k..]) == CaptureReads(s', hw, readable, CaptureOrder[k + 3..])
  {
    var s1 := Assign(s, CaptureOrder[k], hw);
    var s2 := Assign(s1, CaptureOrder[k + 1], hw);
    s' := Assign(s2, CaptureOrder[k + 2], hw);
    assert CaptureOrder[k..][0] == CaptureOrder[k] && CaptureOrder[k..][1..] == CaptureOrder[k + 1..];
    assert CaptureReads(s, hw, readable, CaptureOrder[k..]) == CaptureReads(s1, hw, readable, CaptureOrder[k + 1..]);
    assert CaptureOrder[k + 1..][0] == CaptureOrder[k + 1] && CaptureOrder[k + 1..][1..] == CaptureOrder[k + 2..];
    assert CaptureReads(s1, hw, readable, CaptureOrder[k + 1..]) == CaptureReads(s2, hw, readable, CaptureOrder[k + 2..]);
    assert CaptureOrder[k + 2..][0] == CaptureOrder[k + 2] && CaptureOrder[k + 2..][1..] == CaptureOrder[k + 3..];
  }

  /** The value a read of attribute `a` gives, in the state or on the
      instrument; `NotRead` for the attributes the capture does not read. */
  datatype Reading = Number(n: real) | Words(w: string) | Pair(px: real, py: real) | NotRead

  function StateReading(s: MicroscopeState, a: Attr): Reading
  {
    match a
    case WorkingDistance => Number(s.workingDistance)
    case HfwValue => Number(s.hfw)
    case ScanResolution => Words(s.resolution)
    case HighVoltage => Number(s.highVoltage)
    case BeamCurrent => Number(s.beamCurrent)
    case Rotation => Number(s.scanRotation)
    case Brightness => Number(s.brightness)
    case Contrast => Number(s.contrast)
    case BeamShift => Pair(s.beamShiftX, s.beamShiftY)
    case _ => NotRead
  }

  function HardwareReading(hw: Hardware, a: Attr): Reading
  {
    match a
    case WorkingDistance => Number(hw.workingDistance)
    case HfwValue => Number(hw.hfw)
    case ScanResolution => Words(hw.resolution)
    case HighVoltage => Number(hw.highVoltage)
    case BeamCurrent => Number(hw.beamCurrent)
    case Rotation => Number(hw.rotation)
    case Brightness => Number(hw.brightness)
    case Contrast => Number(hw.contrast)
    case BeamShift => Pair(hw.beamShiftX, hw.beamShiftY)
    case _ => NotRead
  }

  /** The reads `attrs`, all successful. */
  function ReadAll(s: MicroscopeState, hw: Hardware, attrs: seq<Attr>): MicroscopeState
    decreases |attrs|
  {
    if attrs == [] then s else ReadAll(Assign(s, attrs[0], hw), hw, attrs[1..])
  }

  /** A read changes the reading of its own attribute only. */
  lemma AssignReading(s: MicroscopeState, b: Attr, hw: Hardware, a: Attr)
    ensures StateReading(Assign(s, b, hw), a) == if a == b then HardwareReading(hw, a) else StateReading(s, a)
  {
  }

  /** After the reads `attrs`, an attribute among them reads as on the
      instrument, any other as before. */
  lemma {:induction false} ReadAllReading(s: MicroscopeState, hw: Hardware, attrs: seq<Attr>, a: Attr)
    ensures StateReading(ReadAll(s, hw, attrs), a) == if a in attrs then HardwareReading(hw, a) else StateReading(s, a)
    decreases |attrs|
  {
    if attrs != [] {
      ReadAllReading(Assign(s, attrs[0], hw), hw, attrs[1..], a);
      AssignReading(s, attrs[0], hw, a);
      assert a in attrs <==> a == attrs[0] || a in attrs[1..];
    }
  }

  /** The capture stops at the first unreadable attribute `attrs[i]`: the
      reads before it are made, then the fallback is written. */
  lemma {:induction false} CaptureReadsStops(s: MicroscopeState, hw: Hardware, readable: set<Attr>, attrs: seq<Attr>, i: nat)
    requires i < |attrs| && attrs[i] !in readable
    requires forall j :: 0 <= j < i ==> attrs[j] in readable
    ensures CaptureReads(s, hw, readable, attrs) == Fallback(ReadAll(s, hw, attrs[..i]))
    decreases i
  {
    if i == 0 {
      assert attrs[..0] == [];
    } else {
      assert attrs[0] in readable;
      assert attrs[..i][0] == attrs[0] && attrs[..i][1..] == attrs[1..][..i - 1];
      assert forall j :: 0 <= j < i - 1 ==> attrs[1..][j] == attrs[j + 1];
      CaptureReadsStops(Assign(s, attrs[0], hw), hw, readable, attrs[1..], i - 1);
    }
  }

  /** A capture whose first unreadable attribute is `CaptureOrder[i]`: the
      position and the rotation are the fixed fallback; every other field
      read before the failure holds the instrument's value, and every field
      after it keeps its previous value. */
  lemma CaptureFailure(prev: MicroscopeState, pos: Position, hw: Hardware, readable: set<Attr>, i: nat)
    requires i < |CaptureOrder| && CaptureOrder[i] !in readable
    requires forall j :: 0 <= j < i ==> CaptureOrder[j] in readable
    ensures var c := Capture(prev, pos, hw, readable);
            c.x == 2.0 && c.y == 1.0 && c.z == 0.0 && c.t == 0.0 && c.r == 0.0 && c.scanRotation == 0.0
    ensures var c := Capture(prev, pos, hw, readable);
            forall a :: a in CaptureOrder && a != Rotation ==>
              StateReading(c, a) == if a in CaptureOrder[..i] then HardwareReading(hw, a) else StateReading(prev, a)
  {
    var s0 := prev.(x := pos.x, y := pos.y, z := pos.z, t := pos.t, r := pos.r);
    CaptureReadsStops(s0, hw, readable, CaptureOrder, i);
    var c := Capture(prev, pos, hw, readable);
    forall a | a in CaptureOrder && a != Rotation
      ensures StateReading(c, a) == if a in CaptureOrder[..i] then HardwareReading(hw, a) else StateReading(prev, a)
    {
      ReadAllReading(s0, hw, CaptureOrder[..i], a);
    }
  }

  /** The reads after a failed one are never made: a field read after the
      first failure keeps its previous value. */
  lemma FailedBrightnessKeepsContrast(prev: MicroscopeState, pos: Position, hw: Hardware, readable: set<Attr>)
    requires WorkingDistance in readable && HfwValue in readable && ScanResolution in readable
    requires HighVoltage in readable && BeamCurrent in readable && Rotation in readable
    requires Brightness !in readable
    ensures var c := Capture(prev, pos, hw, readable);
            c == Snapshot(pos, hw).(x := 2.0, y := 1.0, z := 0.0, t := 0.0, r := 0.0, scanRotation := 0.0,
                                    brightness := prev.brightness, contrast := prev.contrast,
                                    beamShiftX := prev.beamShiftX, beamShiftY := prev.beamShiftY)
  {
  }

  /** With nothing readable (demo mode, no connection) the capture only
      writes the fallback over the previous state. */
  lemma OfflineCapture(prev: MicroscopeState, pos: Position, hw: Hardware)
    ensures Capture(prev, pos, hw, {}) == Fallback(prev)
  {
  }

  // ------------------------------------------------------- state restore

  /** `_restore_microscope_state` as written: field width, resolution and
      rotation are written, then reading `state.brighness` raises
      AttributeError, so brightness, contrast and beam shift never are.
      Each write that fails ends the restore. */
  function RestoreAsWritten(hw: Hardware, s: MicroscopeState, writable: set<Attr>): Hardware
  {
    if HfwValue !in writable then hw
    else var h1 := hw.(hfw := s.hfw);
    if ScanResolution !in writable then h1
    else var h2 := h1.(resolution := s.resolution);
    if Rotation !in writable then h2
    else h2.(rotation := s.scanRotation)
  }

  /** The restore with the attribute spelled `brightness`: all six writes. */
  function Restore(hw: Hardware, s: MicroscopeState, writable: set<Attr>): Hardware
  {
    var h3 := RestoreAsWritten(hw, s, writable);
    if HfwValue !in writable || ScanResolution !in writable || Rotation !in writable then h3
    else if Brightness !in writable then h3
    else var h4 := h3.(brightness := s.brightness);
    if Contrast !in writable then h4
    else var h5 := h4.(contrast := s.contrast);
    if BeamShift !in writable then h5
    else h5.(beamShiftX := s.beamShiftX, beamShiftY := s.beamShiftY)
  }

  /** The six restored attributes of the hardware agree with the state. */
  predicate Restored(hw: Hardware, s: MicroscopeState)
  {
    hw.hfw == s.hfw && hw.resolution == s.resolution && hw.rotation == s.scanRotation
    && hw.brightness == s.brightness && hw.contrast == s.contrast
    && hw.beamShiftX == s.beamShiftX && hw.beamShiftY == s.beamShiftY
  }

  /** The stage never moves, whichever writes fail. */
  lemma RestoreKeepsStage(hw: Hardware, s: MicroscopeState, writable: set<Attr>)
    ensures Restore(hw, s, writable).stage == hw.stage
    ensures RestoreAsWritten(hw, s, writable).stage == hw.stage
  {
  }

  /** Corrected restore: with every write allowed, capturing after restoring
      gives back the stored state apart from the position and the
      attributes the restore does not write. */
  lemma RestoreThenCapture(hw: Hardware, s: MicroscopeState, writable: set<Attr>, pos: Position)
    requires {HfwValue, ScanResolution, Rotation, Brightness, Contrast, BeamShift} <= writable
    ensures Restored(Restore(hw, s, writable), s)
    ensures var c := Snapshot(pos, Restore(hw, s, writable));
            c == s.(x := pos.x, y := pos.y, z := pos.z, t := pos.t, r := pos.r,
                    workingDistance := hw.workingDistance, highVoltage := hw.highVoltage,
                    beamCurrent := hw.beamCurrent)
  {
  }

  /** As written, the restore cannot bring back a different brightness,
      even when every write would succeed. */
  lemma RestoreAsWrittenLosesBrightness(hw: Hardware, s: MicroscopeState, writable: set<Attr>)
    requires s.brightness != hw.brightness
    ensures !Restored(RestoreAsWritten(hw, s, writable), s)
    ensures RestoreAsWritten(hw, s, writable).brightness == hw.brightness
  {
  }
}
