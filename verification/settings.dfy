/** The settings resolver of `Microscope.update_image_settings`: explicit
    overrides merged with the `imaging` section of the settings dictionary
    into an `ImageSettings` record. */
module Settings {
  import opened Base

  datatype BeamType = Electron | Ion

  /** The dynamically typed values a settings dictionary holds. */
  datatype Value =
    | VStr(s: string)
    | VReal(r: real)
    | VInt(i: int)
    | VBool(b: bool)
    | VBeam(beam: BeamType)
    | VNone

  /** Python truthiness: empty strings, zeros, False and None are falsy;
      enumeration members are truthy. */
  predicate Truthy(v: Value)
  {
    match v
    case VStr(s) => s != ""
    case VReal(r) => r != 0.0
    case VInt(i) => i != 0
    case VBool(b) => b
    case VBeam(_) => true
    case VNone => false
  }

  /** `v == True` in Python: `True`, `1` and `1.0` compare equal to `True`. */
  predicate EqualsTrue(v: Value)
  {
    v == VBool(true) || v == VInt(1) || v == VReal(1.0)
  }

  /** `float(v)` where Python arithmetic accepts `v` as a number (bool is an int). */
  function AsReal(v: Value): (r: Option<real>)
    ensures r.Some? <==> (v.VReal? || v.VInt? || v.VBool?)
  {
    match v
    case VReal(x) => Some(x)
    case VInt(i) => Some(i as real)
    case VBool(b) => Some(if b then 1.0 else 0.0)
    case _ => None
  }

  /** A settings dictionary: section name to section. */
  type Section = map<string, Value>
  type Config = map<string, Section>

  const Imaging: string := "imaging"

  datatype Field =
    | Resolution | DwellTime | HorizontalFieldWidth | Autocontrast | BeamTypeField
    | Quadrant | Path | BitDepth | SampleName | DriftCorrection | FrameIntegration

  /** The key of each field in the `imaging` section. */
  function Key(f: Field): string
  {
    match f
    case Resolution => "resolution"
    case DwellTime => "dwell_time"
    case HorizontalFieldWidth => "horizontal_field_width"
    case Autocontrast => "autocontrast"
    case BeamTypeField => "beam_type"
    case Quadrant => "quadrant"
    case Path => "path"
    case BitDepth => "bit_depth"
    case SampleName => "sample_name"
    case DriftCorrection => "drift_correction"
    case FrameIntegration => "frame_integration"
  }

  /** The order in which the resolver visits the fields. */
  const Order: seq<Field> := [Resolution, DwellTime, HorizontalFieldWidth, Autocontrast,
    BeamTypeField, Quadrant, Path, BitDepth, SampleName, DriftCorrection, FrameIntegration]

  lemma OrderCoversFields(f: Field)
    ensures f in Order
  {
  }

  /** Keyword overrides; a field absent from the map, or mapped to `VNone`,
      was passed as `None`. */
  type Overrides = map<Field, Value>

  datatype ImageSettings = ImageSettings(
    resolution: Value, dwellTime: Value, horizontalFieldWidth: Value, quadrant: Value,
    autocontrast: Value, beamType: Value, path: Value, sampleName: Value,
    bitDepth: Value, driftCorrection: Value, frameIntegration: Value)

  /** The field `f` of a settings record. */
  function Get(s: ImageSettings, f: Field): Value
  {
    match f
    case Resolution => s.resolution
    case DwellTime => s.dwellTime
    case HorizontalFieldWidth => s.horizontalFieldWidth
    case Autocontrast => s.autocontrast
    case BeamTypeField => s.beamType
    case Quadrant => s.quadrant
    case Path => s.path
    case BitDepth => s.bitDepth
    case SampleName => s.sampleName
    case DriftCorrection => s.driftCorrection
    case FrameIntegration => s.frameIntegration
  }

  predicate OverrideWins(ov: Overrides, f: Field)
  {
    f in ov && Truthy(ov[f])
  }

  /** A field can be resolved: a truthy override, or the key in `imaging`. */
  predicate Available(config: Config, ov: Overrides, f: Field)
  {
    OverrideWins(ov, f) || (Imaging in config && Key(f) in config[Imaging])
  }

  /** The value `if override: override else all_settings["imaging"][key]`. */
  function Pick(config: Config, ov: Overrides, f: Field): Value
    requires Available(config, ov, f)
  {
    if OverrideWins(ov, f) then ov[f] else config[Imaging][Key(f)]
  }

  /** The KeyError a failed lookup raises: the section first, then the key. */
  function MissingKey(config: Config, f: Field): Error
  {
    if Imaging !in config then KeyError(Imaging) else KeyError(Key(f))
  }

  /** One field of the resolver. */
  function ResolveField(config: Config, ov: Overrides, f: Field): (r: Result<Value>)
    ensures r.Ok? <==> Available(config, ov, f)
    ensures r.Ok? ==> r.value == Pick(config, ov, f)
    ensures r.Err? ==> r.error == MissingKey(config, f)
  {
    if OverrideWins(ov, f) then Ok(ov[f])
    else if Imaging !in config then Err(KeyError(Imaging))
    else if Key(f) !in config[Imaging] then Err(KeyError(Key(f)))
    else Ok(config[Imaging][Key(f)])
  }

  /** The first index of `fields` that cannot be resolved. */
  predicate FirstMissing(config: Config, ov: Overrides, fields: seq<Field>, i: int)
  {
    && 0 <= i < |fields|
    && !Available(config, ov, fields[i])
    && forall j :: 0 <= j < i ==> Available(config, ov, fields[j])
  }

  /** Walks `fields` in order, assigning each resolved value, and stops at the
      first field that raises: the values assigned so far and the error. */
  function ResolveFields(config: Config, ov: Overrides, fields: seq<Field>): (map<Field, Value>, Option<Error>)
    decreases |fields|
  {
    if fields == [] then (map[], None)
    else
      var prev := ResolveFields(config, ov, fields[..|fields| - 1]);
      if prev.1.Some? then prev
      else match ResolveField(config, ov, fields[|fields| - 1])
        case Ok(v) => (prev.0[fields[|fields| - 1] := v], None)
        case Err(e) => (prev.0, Some(e))
  }

  /** The walk completes exactly when every visited field is available, and
      then every visited field has been assigned. */
  lemma {:induction false} WalkCompletes(config: Config, ov: Overrides, fields: seq<Field>)
    ensures ResolveFields(config, ov, fields).1.None? <==> forall i :: 0 <= i < |fields| ==> Available(config, ov, fields[i])
    ensures ResolveFields(config, ov, fields).1.None? ==> forall i :: 0 <= i < |fields| ==> fields[i] in ResolveFields(config, ov, fields).0
    decreases |fields|
  {
    if fields != [] {
      var init := fields[..|fields| - 1];
      WalkCompletes(config, ov, init);
      assert forall i :: 0 <= i < |init| ==> init[i] == fields[i];
    }
  }

  /** Every value the walk assigns is the one `Pick` chooses, for a visited field. */
  lemma {:induction false} WalkAssigns(config: Config, ov: Overrides, fields: seq<Field>)
    ensures forall f :: f in ResolveFields(config, ov, fields).0 ==>
      f in fields && Available(config, ov, f) && ResolveFields(config, ov, fields).0[f] == Pick(config, ov, f)
    decreases |fields|
  {
    if fields != [] {
      var init := fields[..|fields| - 1];
      WalkAssigns(config, ov, init);
      assert forall f :: f in init ==> f in fields;
    }
  }

  /** A failed walk reports the KeyError of the first unavailable field, after
      assigning every field before it. */
  lemma {:induction false} WalkStops(config: Config, ov: Overrides, fields: seq<Field>)
    requires ResolveFields(config, ov, fields).1.Some?
    ensures exists i :: (FirstMissing(config, ov, fields, i)
      && ResolveFields(config, ov, fields).1.value == MissingKey(config, fields[i])
      && forall j :: 0 <= j < i ==> fields[j] in ResolveFields(config, ov, fields).0)
    decreases |fields|
  {
    var init := fields[..|fields| - 1];
    assert forall i :: 0 <= i < |init| ==> init[i] == fields[i];
    var prev := ResolveFields(config, ov, init);
    if prev.1.Some? {
      WalkStops(config, ov, init);
      var i :| FirstMissing(config, ov, init, i) && prev.1.value == MissingKey(config, init[i])
        && forall j :: 0 <= j < i ==> init[j] in prev.0;
      assert FirstMissing(config, ov, fields, i);
    } else {
      WalkCompletes(config, ov, init);
      var i := |fields| - 1;
      assert FirstMissing(config, ov, fields, i);
      forall j | 0 <= j < i ensures fields[j] in ResolveFields(config, ov, fields).0 {
        assert init[j] in prev.0;
      }
    }
  }

  /** The record built from a complete walk; the beam type is `ELECTRON`
      unless a `beam_type` argument other than `None` was passed (`is None`
      test, so a falsy one such as 0 is kept), whatever the dictionary holds. */
  function Build(m: map<Field, Value>, ov: Overrides): ImageSettings
    requires forall f: Field :: f in m
  {
    ImageSettings(
      resolution := m[Resolution], dwellTime := m[DwellTime],
      horizontalFieldWidth := m[HorizontalFieldWidth], quadrant := m[Quadrant],
      autocontrast := m[Autocontrast],
      beamType := if BeamTypeField in ov && ov[BeamTypeField] != VNone then ov[BeamTypeField] else VBeam(Electron),
      path := m[Path], sampleName := m[SampleName], bitDepth := m[BitDepth],
      driftCorrection := m[DriftCorrection], frameIntegration := m[FrameIntegration])
  }

  /** `update_image_settings(all_settings, **overrides)` as a value. */
  function Resolve(config: Config, ov: Overrides): (r: Result<ImageSettings>)
    ensures r.Ok? <==> forall f: Field :: Available(config, ov, f)
    ensures r.Ok? ==> forall f: Field :: f != BeamTypeField ==> Get(r.value, f) == Pick(config, ov, f)
    ensures r.Ok? ==> r.value.beamType == if BeamTypeField in ov && ov[BeamTypeField] != VNone then ov[BeamTypeField] else VBeam(Electron)
    ensures r.Err? ==> exists i :: FirstMissing(config, ov, Order, i) && r.error == MissingKey(config, Order[i])
  {
    var (m, e) := ResolveFields(config, ov, Order);
    WalkCompletes(config, ov, Order);
    OrderAvailable(config, ov);
    if e.Some? then
      WalkStops(config, ov, Order);
      Err(e.value)
    else
      WalkAssigns(config, ov, Order);
      BuildPicks(config, ov, m);
      Ok(Build(m, ov))
  }

  /** Every field is visited by `Order`. */
  lemma OrderAvailable(config: Config, ov: Overrides)
    ensures (forall i :: 0 <= i < |Order| ==> Available(config, ov, Order[i]))
        <==> forall f: Field :: Available(config, ov, f)
  {
    if forall i :: 0 <= i < |Order| ==> Available(config, ov, Order[i]) {
      forall f: Field ensures Available(config, ov, f) {
        OrderCoversFields(f);
        var i :| 0 <= i < |Order| && Order[i] == f;
      }
    }
  }

  /** A map that holds every field of `Order`, each picked as
      `update_image_settings` picks it, builds the settings that pick them. */
  lemma BuildPicks(config: Config, ov: Overrides, m: map<Field, Value>)
    requires forall i :: 0 <= i < |Order| ==> Order[i] in m
    requires forall f :: f in m ==> Available(config, ov, f) && m[f] == Pick(config, ov, f)
    ensures forall f: Field :: f in m
    ensures forall f: Field :: f != BeamTypeField ==> Get(Build(m, ov), f) == Pick(config, ov, f)
  {
    assert forall f: Field :: f in m by {
      forall f: Field ensures f in m {
        OrderCoversFields(f);
        var i :| 0 <= i < |Order| && Order[i] == f;
      }
    }
    forall f: Field | f != BeamTypeField
      ensures Get(Build(m, ov), f) == Pick(config, ov, f)
    {
      BuildGet(m, ov, f);
    }
  }

  /** Every field but the beam type is read back from the walk's map. */
  lemma BuildGet(m: map<Field, Value>, ov: Overrides, f: Field)
    requires forall g: Field :: g in m
    requires f != BeamTypeField
    ensures Get(Build(m, ov), f) == m[f]
  {
  }

  /** Once a walk has failed, visiting more fields changes nothing. */
  lemma {:induction false} FailureSticks(config: Config, ov: Overrides, fields: seq<Field>, more: seq<Field>)
    requires ResolveFields(config, ov, fields).1.Some?
    ensures ResolveFields(config, ov, fields + more) == ResolveFields(config, ov, fields)
    decreases |more|
  {
    if more == [] {
      assert fields + more == fields;
    } else {
      var init := more[..|more| - 1];
      var all := fields + more;
      assert all != [];
      assert all[..|all| - 1] == fields + init;
      FailureSticks(config, ov, fields, init);
      assert ResolveFields(config, ov, all[..|all| - 1]).1.Some?;
    }
  }

  /** One more field extends the walk by one step. */
  lemma WalkExtends(config: Config, ov: Overrides, fields: seq<Field>, i: nat)
    requires i < |fields|
    ensures var prev := ResolveFields(config, ov, fields[..i]);
            ResolveFields(config, ov, fields[..i + 1]) ==
              if prev.1.Some? then prev
              else match ResolveField(config, ov, fields[i])
                case Ok(v) => (prev.0[fields[i] := v], None)
                case Err(e) => (prev.0, Some(e))
  {
    assert fields[..i + 1][..i] == fields[..i];
  }

  /** A walk that first fails at field `i` ends with that field's error and
      the values assigned before it. */
  lemma WalkFailsAt(config: Config, ov: Overrides, fields: seq<Field>, i: nat)
    requires i < |fields|
    requires ResolveFields(config, ov, fields[..i]).1.None?
    requires ResolveField(config, ov, fields[i]).Err?
    ensures ResolveFields(config, ov, fields) ==
            (ResolveFields(config, ov, fields[..i]).0, Some(ResolveField(config, ov, fields[i]).error))
  {
    WalkExtends(config, ov, fields, i);
    FailureSticks(config, ov, fields[..i + 1], fields[i + 1..]);
    assert fields[..i + 1] + fields[i + 1..] == fields;
  }

  lemma ResolveOfCompleteWalk(config: Config, ov: Overrides, m: map<Field, Value>)
    requires ResolveFields(config, ov, Order) == (m, None)
    ensures forall f: Field :: f in m
    ensures Resolve(config, ov) == Ok(Build(m, ov))
  {
    WalkCompletes(config, ov, Order);
    WalkAssigns(config, ov, Order);
    BuildPicks(config, ov, m);
  }

  lemma ResolveOfFailedWalk(config: Config, ov: Overrides)
    requires ResolveFields(config, ov, Order).1.Some?
    ensures Resolve(config, ov) == Err(ResolveFields(config, ov, Order).1.value)
  {
  }

  /** A falsy override (False, 0, 0.0, "") does not win: the dictionary decides. */
  lemma FalsyOverrideFallsBack(config: Config, ov: Overrides, f: Field)
    requires f in ov && !Truthy(ov[f]) && f != BeamTypeField
    requires Resolve(config, ov).Ok?
    ensures Imaging in config && Key(f) in config[Imaging]
    ensures Get(Resolve(config, ov).value, f) == config[Imaging][Key(f)]
  {
    assert Available(config, ov, f);
  }

  /** Two settings records agreeing on every field are equal. */
  lemma SettingsExtensional(a: ImageSettings, b: ImageSettings)
    requires forall f: Field :: Get(a, f) == Get(b, f)
    ensures a == b
  {
    assert Get(a, Resolution) == Get(b, Resolution);
    assert Get(a, DwellTime) == Get(b, DwellTime);
    assert Get(a, HorizontalFieldWidth) == Get(b, HorizontalFieldWidth);
    assert Get(a, Autocontrast) == Get(b, Autocontrast);
    assert Get(a, BeamTypeField) == Get(b, BeamTypeField);
    assert Get(a, Quadrant) == Get(b, Quadrant);
    assert Get(a, Path) == Get(b, Path);
    assert Get(a, BitDepth) == Get(b, BitDepth);
    assert Get(a, SampleName) == Get(b, SampleName);
    assert Get(a, DriftCorrection) == Get(b, DriftCorrection);
    assert Get(a, FrameIntegration) == Get(b, FrameIntegration);
  }

  lemma FirstMissingUnique(config: Config, ov: Overrides, fields: seq<Field>, i: int, j: int)
    requires FirstMissing(config, ov, fields, i) && FirstMissing(config, ov, fields, j)
    ensures i == j
  {
  }

  /** The dictionary's `beam_type` has to be present when no truthy
      `beam_type` argument is given, because it is looked up ... */
  lemma BeamTypeKeyRequired(config: Config, ov: Overrides)
    requires !OverrideWins(ov, BeamTypeField)
    requires Imaging in config && Key(BeamTypeField) !in config[Imaging]
    ensures Resolve(config, ov).Err?
  {
    assert !Available(config, ov, BeamTypeField);
  }

  /** ... but whatever it holds never changes the result, which is `ELECTRON`
      when no `beam_type` argument (or `None`) is passed. */
  lemma {:induction false} BeamTypeValueIgnored(config: Config, ov: Overrides, v: Value)
    requires Imaging in config && Key(BeamTypeField) in config[Imaging]
    ensures var c := config[Imaging := config[Imaging][Key(BeamTypeField) := v]];
            Resolve(c, ov) == Resolve(config, ov)
    ensures (BeamTypeField !in ov || ov[BeamTypeField] == VNone) && Resolve(config, ov).Ok? ==>
              Resolve(config, ov).value.beamType == VBeam(Electron)
  {
    var c := config[Imaging := config[Imaging][Key(BeamTypeField) := v]];
    assert forall f: Field :: Available(c, ov, f) == Available(config, ov, f);
    forall f: Field | f != BeamTypeField && Available(config, ov, f)
      ensures Pick(c, ov, f) == Pick(config, ov, f)
    {
      assert Key(f) != Key(BeamTypeField);
    }
    var r1, r2 := Resolve(c, ov), Resolve(config, ov);
    if r2.Ok? {
      forall f: Field ensures Get(r1.value, f) == Get(r2.value, f) {
        assert Available(config, ov, f);
      }
      SettingsExtensional(r1.value, r2.value);
    } else {
      var i :| FirstMissing(c, ov, Order, i) && r1.error == MissingKey(c, Order[i]);
      var j :| FirstMissing(config, ov, Order, j) && r2.error == MissingKey(config, Order[j]);
      assert FirstMissing(config, ov, Order, i);
      FirstMissingUnique(config, ov, Order, i, j);
    }
  }

  /** With no `imaging` section, only a call whose every override is truthy succeeds. */
  lemma NoSectionNeedsAllOverrides(config: Config, ov: Overrides)
    requires Imaging !in config
    ensures Resolve(config, ov).Ok? <==> forall f: Field :: OverrideWins(ov, f)
    ensures Resolve(config, ov).Err? ==> Resolve(config, ov).error == KeyError(Imaging)
  {
    assert forall f: Field :: Available(config, ov, f) == OverrideWins(ov, f);
    if Resolve(config, ov).Err? {
      var i :| FirstMissing(config, ov, Order, i) && Resolve(config, ov).error == MissingKey(config, Order[i]);
    }
  }
}
