/** `GUIMainWindow`: the settings dictionary built from the widgets, the
    field-width override of `acquire_image`, and `collect_stack` with its
    abort button. The widgets are a record; the microscope calls inside the
    stack loop are the inputs of `Stack.Env`. */
module Gui {
  import opened Base
  import opened Text
  import opened Settings
  import opened Rules
  import opened Stack

  /** What the widgets read by `create_settings_dict` show. The spin boxes
      hold micro-units; the combo boxes hold text. */
  datatype Widgets = Widgets(
    resolution: string,
    dwellTime: real,
    hfw: real,
    autocontrast: bool,
    beamType: string,
    quadrant: string,
    q1: bool,
    q2: bool,
    directory: string,
    sampleName: string,
    bitDepth: string,
    driftCorrection: bool,
    frameIntegration: int)

  /** The beam-type combo box: "ION" selects the ion beam, any other text
      the electron beam. */
  function BeamChoice(text: string): (b: BeamType)
    ensures b == Ion <==> text == "ION"
  {
    if text == "ELECTRON" then Electron else if text == "ION" then Ion else Electron
  }

  /** The `imaging` section, given the two integers already parsed. */
  function SectionOf(w: Widgets, quadrant: int, bitDepth: int): Section
  {
    map["resolution" := VStr(w.resolution),
        "horizontal_field_width" := VReal(Micro(w.hfw)),
        "dwell_time" := VReal(Micro(w.dwellTime)),
        "autocontrast" := VBool(w.autocontrast),
        "beam_type" := VBeam(BeamChoice(w.beamType)),
        "quadrant" := VInt(quadrant),
        "path" := VStr(w.directory),
        "sample_name" := VStr(w.sampleName),
        "bit_depth" := VInt(bitDepth),
        "drift_correction" := VBool(w.driftCorrection),
        "frame_integration" := VInt(w.frameIntegration),
        "q1" := VBool(w.q1),
        "q2" := VBool(w.q2)]
  }

  /** `create_settings_dict`: `int()` of the quadrant and bit-depth texts
      raises ValueError when they are not integers. */
  function SettingsDict(w: Widgets): (r: Result<Config>)
    ensures r.Err? <==> ParseInt(w.quadrant).None? || ParseInt(w.bitDepth).None?
    ensures r.Err? ==> r.error == ValueError
    ensures r.Ok? ==> r.value.Keys == {Imaging}
  {
    match ParseInt(w.quadrant)
    case None => Err(ValueError)
    case Some(q) =>
      match ParseInt(w.bitDepth)
      case None => Err(ValueError)
      case Some(b) => Ok(map[Imaging := SectionOf(w, q, b)])
  }

  /** Every field the resolver looks up is in the section. */
  lemma SectionHasKeys(w: Widgets, q: int, b: int, f: Field)
    ensures Key(f) in SectionOf(w, q, b)
  {
  }

  /** What the widgets ask the microscope for, written out field by field:
      the micro-unit spin boxes scaled to SI units and the beam ELECTRON. */
  function WidgetSettings(w: Widgets, quadrant: int, bitDepth: int): ImageSettings
  {
    ImageSettings(
      resolution := VStr(w.resolution), dwellTime := VReal(Micro(w.dwellTime)),
      horizontalFieldWidth := VReal(Micro(w.hfw)), quadrant := VInt(quadrant),
      autocontrast := VBool(w.autocontrast), beamType := VBeam(Electron),
      path := VStr(w.directory), sampleName := VStr(w.sampleName), bitDepth := VInt(bitDepth),
      driftCorrection := VBool(w.driftCorrection), frameIntegration := VInt(w.frameIntegration))
  }

  /** A section holding every key resolves, with no overrides, to its own
      entries and the electron beam. */
  lemma ResolvedSection(sec: Section)
    requires forall f: Field :: Key(f) in sec
    ensures Resolve(map[Imaging := sec], map[]).Ok?
    ensures var r := Resolve(map[Imaging := sec], map[]).value;
            r.beamType == VBeam(Electron)
            && forall f: Field :: f != BeamTypeField ==> Get(r, f) == sec[Key(f)]
  {
    var c := map[Imaging := sec];
    assert forall f: Field :: Available(c, map[], f);
  }

  lemma SectionLookupsA(w: Widgets, q: int, b: int)
    ensures var s := SectionOf(w, q, b);
            s[Key(Resolution)] == VStr(w.resolution) && s[Key(DwellTime)] == VReal(Micro(w.dwellTime))
            && s[Key(HorizontalFieldWidth)] == VReal(Micro(w.hfw)) && s[Key(Quadrant)] == VInt(q)
            && s[Key(Autocontrast)] == VBool(w.autocontrast)
  {
  }

  lemma SectionLookupsB(w: Widgets, q: int, b: int)
    ensures var s := SectionOf(w, q, b);
            s[Key(Path)] == VStr(w.directory) && s[Key(SampleName)] == VStr(w.sampleName)
            && s[Key(BitDepth)] == VInt(b) && s[Key(DriftCorrection)] == VBool(w.driftCorrection)
            && s[Key(FrameIntegration)] == VInt(w.frameIntegration)
  {
  }

  /** A section holding, for each field but the beam, the entry of `s`
      resolves to `s` when `s` names the electron beam. */
  lemma ResolvesTo(sec: Section, s: ImageSettings)
    requires forall f: Field :: Key(f) in sec
    requires forall f: Field :: f != BeamTypeField ==> sec[Key(f)] == Get(s, f)
    requires s.beamType == VBeam(Electron)
    ensures Resolve(map[Imaging := sec], map[]) == Ok(s)
  {
    ResolvedSection(sec);
    var r := Resolve(map[Imaging := sec], map[]).value;
    forall f: Field ensures Get(r, f) == Get(s, f) {
    }
    SettingsExtensional(r, s);
  }

  /** The section resolves to the widgets' values. */
  lemma SectionResolvesToWidgets(w: Widgets, q: int, b: int)
    ensures Resolve(map[Imaging := SectionOf(w, q, b)], map[]) == Ok(WidgetSettings(w, q, b))
  {
    var sec, s := SectionOf(w, q, b), WidgetSettings(w, q, b);
    forall f: Field ensures Key(f) in sec {
      SectionHasKeys(w, q, b, f);
    }
    forall f: Field | f != BeamTypeField ensures sec[Key(f)] == Get(s, f) {
      SectionLookupsA(w, q, b);
      SectionLookupsB(w, q, b);
    }
    ResolvesTo(sec, s);
  }

  /** The dictionary the window builds always resolves, with no overrides,
      to the widgets' values: dwell time and field width scaled by 1e-6,
      the integers as parsed, and the beam ELECTRON whatever the combo box
      says. */
  lemma GuiSettingsResolve(w: Widgets)
    requires SettingsDict(w).Ok?
    ensures Resolve(SettingsDict(w).value, map[])
            == Ok(WidgetSettings(w, ParseInt(w.quadrant).value, ParseInt(w.bitDepth).value))
  {
    var q, b := ParseInt(w.quadrant).value, ParseInt(w.bitDepth).value;
    assert SettingsDict(w).value == map[Imaging := SectionOf(w, q, b)];
    SectionResolvesToWidgets(w, q, b);
  }

  /** Choosing "ION" in the window changes the dictionary but not the
      settings the microscope resolves from it. */
  lemma GuiBeamChoiceIgnored(w: Widgets, text: string)
    requires SettingsDict(w).Ok?
    ensures SettingsDict(w.(beamType := text)).Ok?
    ensures Resolve(SettingsDict(w.(beamType := text)).value, map[]) == Resolve(SettingsDict(w).value, map[])
    ensures BeamChoice(text) != BeamChoice(w.beamType) ==> SettingsDict(w.(beamType := text)) != SettingsDict(w)
  {
    var w2 := w.(beamType := text);
    if BeamChoice(text) != BeamChoice(w.beamType) {
      assert SettingsDict(w2).value[Imaging]["beam_type"] != SettingsDict(w).value[Imaging]["beam_type"];
    }
    assert w2.quadrant == w.quadrant && w2.bitDepth == w.bitDepth;
    var q, b := ParseInt(w.quadrant).value, ParseInt(w.bitDepth).value;
    GuiSettingsResolve(w);
    GuiSettingsResolve(w2);
    assert WidgetSettings(w2, q, b) == WidgetSettings(w, q, b);
  }

  /** `acquire_image(hfw)` of the window: a given field width replaces the
      one in the `imaging` section before the dictionary is handed on. */
  function WithHfw(config: Config, hfw: Option<real>): (r: Result<Config>)
    ensures hfw.None? ==> r == Ok(config)
    ensures hfw.Some? ==> (r.Err? <==> Imaging !in config)
    ensures r.Err? ==> r.error == KeyError(Imaging)
  {
    match hfw
    case None => Ok(config)
    case Some(h) =>
      if Imaging !in config then Err(KeyError(Imaging))
      else Ok(config[Imaging := config[Imaging][Key(HorizontalFieldWidth) := VReal(h)]])
  }

  /** After the override every field is still available, and each field
      but the field width is picked as before. */
  lemma OverridePicks(config: Config, h: real)
    requires Imaging in config && forall f: Field :: Available(config, map[], f)
    ensures var c := WithHfw(config, Some(h)).value;
            (forall f: Field :: Available(c, map[], f))
            && Pick(c, map[], HorizontalFieldWidth) == VReal(h)
            && forall f: Field :: f != HorizontalFieldWidth ==> Pick(c, map[], f) == Pick(config, map[], f)
  {
    var c := WithHfw(config, Some(h)).value;
    forall f: Field ensures Available(c, map[], f) {
      assert Available(config, map[], f);
    }
    forall f: Field | f != HorizontalFieldWidth ensures Pick(c, map[], f) == Pick(config, map[], f) {
      assert Key(f) != Key(HorizontalFieldWidth);
    }
  }

  /** Two records agreeing on every field but the field width. */
  lemma SettingsAgreeBut(a: ImageSettings, b: ImageSettings, h: real)
    requires forall f: Field :: f != HorizontalFieldWidth ==> Get(a, f) == Get(b, f)
    requires a.horizontalFieldWidth == VReal(h)
    ensures a == b.(horizontalFieldWidth := VReal(h))
  {
    var want := b.(horizontalFieldWidth := VReal(h));
    forall f: Field ensures Get(a, f) == Get(want, f) {
    }
    SettingsExtensional(a, want);
  }

  /** The override reaches the resolved settings and changes nothing else. */
  lemma HfwOverrideResolves(config: Config, h: real)
    requires Imaging in config && Resolve(config, map[]).Ok?
    ensures WithHfw(config, Some(h)).Ok?
    ensures var r := Resolve(WithHfw(config, Some(h)).value, map[]);
            r.Ok? && r.value == Resolve(config, map[]).value.(horizontalFieldWidth := VReal(h))
  {
    var c := WithHfw(config, Some(h)).value;
    OverridePicks(config, h);
    var r1, r0 := Resolve(c, map[]).value, Resolve(config, map[]).value;
    forall f: Field | f != HorizontalFieldWidth ensures Get(r1, f) == Get(r0, f) {
    }
    SettingsAgreeBut(r1, r0, h);
  }

  /** Sequence concatenation regroups; used by `SaveStep` and `SaveFrames`
      to show that appending one more file or row extends the list built so far. */
  lemma AppendAssoc<T>(a: seq<T>, b: seq<T>, c: seq<T>)
    ensures (a + b) + c == a + (b + c)
  {
  }

  /** Writing back the value a map already holds leaves it as it was; used
      by `LoopOverrideIsIdle`, where the override rewrites the spin box's
      own width into the `imaging` section. */
  lemma UpdateSame<K, V>(m: map<K, V>, k: K, v: V)
    requires k in m && m[k] == v
    ensures m[k := v] == m
  {
  }

  /** In the stack loop the spin box already shows the step's field width,
      so the override writes back the value the dictionary holds. */
  lemma LoopOverrideIsIdle(w: Widgets)
    requires SettingsDict(w).Ok?
    ensures WithHfw(SettingsDict(w).value, Some(Micro(w.hfw))) == SettingsDict(w)
  {
    var q, b := ParseInt(w.quadrant).value, ParseInt(w.bitDepth).value;
    var sec := SectionOf(w, q, b);
    var c := SettingsDict(w).value;
    assert c == map[Imaging := sec];
    SectionLookupsA(w, q, b);
    UpdateSame(sec, Key(HorizontalFieldWidth), VReal(Micro(w.hfw)));
    UpdateSame(c, Imaging, sec);
  }

  class MainWindow {
    var widgets: Widgets
    /** `self.all_settings`, the dictionary `create_settings_dict` caches. */
    var allSettings: Option<Config>
    var acquireEnabled: bool
    var collectEnabled: bool
    var abortEnabled: bool
    /** `_abort_clicked_status`. */
    var abortRequested: bool
    /** How many times the clock has been read. */
    var ticks: nat
    /** The names of the files written by `save_image`, oldest first. */
    var saved: seq<string>
    /** The field widths handed to the microscope's acquisitions. */
    var hardwareHfw: seq<real>
    /** `self.experiment_data`. */
    var experimentData: seq<Row>
    /** The data frames saved as `summary`. */
    var summaries: seq<seq<Row>>

    constructor (w: Widgets, acquire: bool, collect: bool, abort: bool)
      ensures widgets == w && allSettings == None && !abortRequested
      ensures acquireEnabled == acquire && collectEnabled == collect && abortEnabled == abort
      ensures ticks == 0 && saved == [] && hardwareHfw == [] && experimentData == [] && summaries == []
    {
      widgets := w;
      allSettings := None;
      acquireEnabled, collectEnabled, abortEnabled := acquire, collect, abort;
      abortRequested := false;
      ticks := 0;
      saved, hardwareHfw, experimentData, summaries := [], [], [], [];
    }

    /** `create_settings_dict`, caching the dictionary it returns. */
    method CreateSettingsDict() returns (r: Result<Config>)
      modifies this`allSettings
      ensures r == SettingsDict(widgets)
      ensures r.Ok? ==> allSettings == Some(r.value)
      ensures r.Err? ==> allSettings == old(allSettings)
    {
      r := SettingsDict(widgets);
      if r.Ok? {
        allSettings := Some(r.value);
      }
    }

    /** The dictionary `acquire_image(hfw)` hands to the microscope. The
        override is written into the cached dictionary itself. */
    method AcquireSettings(hfw: Option<real>) returns (r: Result<Config>)
      modifies this`allSettings
      ensures r == match SettingsDict(widgets) case Ok(c) => WithHfw(c, hfw) case Err(e) => Err(e)
      ensures r.Ok? ==> allSettings == Some(r.value)
      ensures SettingsDict(widgets).Err? ==> allSettings == old(allSettings)
    {
      var c := CreateSettingsDict();
      if c.Err? {
        return Err(c.error);
      }
      r := WithHfw(c.value, hfw);
      if r.Ok? {
        allSettings := Some(r.value);
      }
    }

    /** `_abort_clicked`. */
    method AbortClicked()
      modifies this`abortEnabled, this`abortRequested
      ensures !abortEnabled && abortRequested
    {
      abortEnabled := false;
      abortRequested := true;
    }

    /** The cached dictionary is the one the widgets give, and they give one. */
    ghost predicate Cached()
      reads this`widgets, this`allSettings
    {
      SettingsDict(widgets).Ok? && allSettings == Some(SettingsDict(widgets).value)
    }

    /** The window shows `log`: files and field widths appended to the
        ones before the run, the rows, the clock, and the spin box. */
    ghost predicate Shows(log: Log, savedBefore: seq<string>, hfwBefore: seq<real>, w0: Widgets)
      reads this`saved, this`hardwareHfw, this`experimentData, this`ticks, this`widgets
    {
      saved == savedBefore + log.files && hardwareHfw == hfwBefore + log.hardwareHfw
      && experimentData == log.rows && ticks == log.ticks && widgets == w0.(hfw := log.hfwWidget)
    }

    /** The start of an enabled step: read the clock for the file names,
        set the spin box, and acquire with the step's field width. */
    method BeginStep(env: Env, step: Step, ghost log: Log,
                     ghost savedBefore: seq<string>, ghost hfwBefore: seq<real>, ghost w0: Widgets)
      returns (stamp: string)
      requires Shows(log, savedBefore, hfwBefore, w0) && Cached()
      modifies this`widgets, this`allSettings, this`ticks, this`hardwareHfw
      ensures stamp == env.clock(log.ticks) && Shows(Begin(log, step), savedBefore, hfwBefore, w0)
      ensures Cached()
    {
      stamp := env.clock(ticks);
      ticks := ticks + 1;
      widgets := widgets.(hfw := step.hfw);
      assert SettingsDict(widgets).Ok?;
      var cfg := AcquireSettings(Some(Micro(step.hfw)));
      LoopOverrideIsIdle(widgets);
      hardwareHfw := hardwareHfw + [Micro(step.hfw)];
    }

    /** One enabled step of `_run_loop`. */
    method AcquireStep(env: Env, step: Step, i: nat, counter: nat, ghost log: Log,
                       ghost savedBefore: seq<string>, ghost hfwBefore: seq<real>, ghost w0: Widgets)
      requires counter == log.counter && Shows(log, savedBefore, hfwBefore, w0)
      requires Cached()
      modifies this`widgets, this`allSettings, this`ticks, this`saved, this`hardwareHfw, this`experimentData
      ensures Shows(Acquire(env, log, step, i), savedBefore, hfwBefore, w0)
      ensures Cached()
    {
      var stamp := BeginStep(env, step, log, savedBefore, hfwBefore, w0);
      SaveStep(env, step, i, counter, stamp, log, savedBefore, hfwBefore, w0);
    }

    /** The saving half of an enabled step: one file in single-quadrant
        mode, one file per returned frame with both quadrants. */
    method SaveStep(env: Env, step: Step, i: nat, counter: nat, stamp: string, ghost log: Log,
                    ghost savedBefore: seq<string>, ghost hfwBefore: seq<real>, ghost w0: Widgets)
      requires counter == log.counter && stamp == env.clock(log.ticks)
      requires Shows(Begin(log, step), savedBefore, hfwBefore, w0)
      modifies this`ticks, this`saved, this`experimentData
      ensures Shows(Acquire(env, log, step, i), savedBefore, hfwBefore, w0)
    {
      var state := env.states(i);
      ghost var begun := Begin(log, step);
      var hfwText := env.show(step.hfw);
      if !env.dual {
        var name := FileName(counter, env.sample, hfwText, None, stamp);
        assert FrameRows(state, [name], env.clock, begun.ticks) == [LogRow(state, name, env.clock(begun.ticks))];
        SaveFrame(state, name, env.clock);
        AppendAssoc(savedBefore, begun.files, [name]);
        assert StepNames(env, log, step, i) == [name];
      } else {
        FrameNamesTabulate(counter, env.sample, hfwText, stamp, env.frames(i));
        ghost var names := StepNames(env, log, step, i);
        SaveFrames(state, (ii: nat) => FileName(counter, env.sample, hfwText, Some(ii), stamp), env.frames(i), env.clock);
        AppendAssoc(savedBefore, begun.files, names);
      }
    }

    /** The frames of one multi-frame acquisition: frame `ii` saved under
        `nameOf(ii)` and logged with a clock reading of its own. */
    method SaveFrames(state: MicroscopeState, nameOf: nat -> string, k: nat, clock: nat -> string)
      modifies this`ticks, this`saved, this`experimentData
      ensures saved == old(saved) + Tabulate(nameOf, k)
      ensures experimentData == old(experimentData) + FrameRows(state, Tabulate(nameOf, k), clock, old(ticks))
      ensures ticks == old(ticks) + k
    {
      var t1 := ticks;
      var ii := 0;
      ghost var names, rows := [], [];
      while ii < k
        invariant 0 <= ii <= k && names == Tabulate(nameOf, ii)
        invariant rows == FrameRows(state, names, clock, t1)
        invariant saved == old(saved) + names && experimentData == old(experimentData) + rows
        invariant ticks == t1 + ii
      {
        var name := nameOf(ii);
        ghost var row := LogRow(state, name, clock(t1 + |names|));
        AppendAssoc(old(saved), names, [name]);
        AppendAssoc(old(experimentData), rows, [row]);
        FrameRowsStep(state, names, name, clock, t1);
        SaveFrame(state, name, clock);
        names, rows := names + [name], rows + [row];
        ii := ii + 1;
      }
    }

    /** `save_image` of one frame and its row in the log. */
    method SaveFrame(state: MicroscopeState, name: string, clock: nat -> string)
      modifies this`ticks, this`saved, this`experimentData
      ensures saved == old(saved) + [name] && ticks == old(ticks) + 1
      ensures experimentData == old(experimentData) + [LogRow(state, name, clock(old(ticks)))]
    {
      saved := saved + [name];
      var rowStamp := clock(ticks);
      ticks := ticks + 1;
      experimentData := experimentData + [LogRow(state, name, rowStamp)];
    }

    /** One pass of the loop in `_run_loop`: the step if it is enabled, then
        the events processed (a click on abort among them) and the flag
        checked and cleared. */
    method RunStep(env: Env, step: Step, i: nat, counter: nat, ghost q: Progress,
                   ghost savedBefore: seq<string>, ghost hfwBefore: seq<real>, ghost w0: Widgets)
      returns (next: nat, stop: bool)
      requires !q.stopped && q.log.counter == counter && abortRequested == q.abortFlag
      requires Shows(q.log, savedBefore, hfwBefore, w0)
      requires Cached()
      modifies this`widgets, this`allSettings, this`ticks, this`saved, this`hardwareHfw, this`experimentData
      modifies this`abortEnabled, this`abortRequested
      ensures var q2 := StepOnce(env, q, step, i);
              q2.log.counter == next && abortRequested == q2.abortFlag && stop == q2.stopped
              && Shows(q2.log, savedBefore, hfwBefore, w0)
      ensures Cached()
    {
      next := counter;
      if step.enabled {
        AcquireStep(env, step, i, counter, q.log, savedBefore, hfwBefore, w0);
        next := counter + 1;
      }
      if env.clicks(i) {
        AbortClicked();
      }
      stop := false;
      if abortRequested {
        abortRequested := false;
        stop := true;
      }
    }

    /** `_run_loop`: the steps in order until one finds the abort flag set. */
    method RunLoop(env: Env, steps: seq<Step>, ghost p0: Progress,
                   ghost savedBefore: seq<string>, ghost hfwBefore: seq<real>, ghost w0: Widgets)
      requires !p0.stopped && p0.log.counter == 0 && abortRequested == p0.abortFlag
      requires Shows(p0.log, savedBefore, hfwBefore, w0)
      requires Cached()
      modifies this`widgets, this`allSettings, this`ticks, this`saved, this`hardwareHfw, this`experimentData
      modifies this`abortEnabled, this`abortRequested
      ensures var q := Run(env, steps, p0);
              abortRequested == q.abortFlag && Shows(q.log, savedBefore, hfwBefore, w0)
      ensures Cached()
    {
      var counter := 0;
      var i := 0;
      while i < |steps|
        invariant 0 <= i <= |steps|
        invariant var q := Run(env, steps[..i], p0);
                  !q.stopped && q.log.counter == counter && abortRequested == q.abortFlag
                  && Shows(q.log, savedBefore, hfwBefore, w0)
        invariant Cached()
      {
        RunNext(env, steps, p0, i);
        var stop;
        counter, stop := RunStep(env, steps[i], i, counter, Run(env, steps[..i], p0), savedBefore, hfwBefore, w0);
        if stop {
          RunStopsHere(env, steps, p0, i + 1);
          return;
        }
        i := i + 1;
      }
      assert steps[..i] == steps;
    }

    /** The window after a run that ended in `q`: the run's files, rows and
        field widths shown, the abort flag as the loop left it, acquire and
        collect enabled again, abort disabled, and the rows saved as the
        summary. */
    ghost predicate Finished(q: Progress, savedBefore: seq<string>, hfwBefore: seq<real>, w0: Widgets,
                             summariesBefore: seq<seq<Row>>)
      reads this`saved, this`hardwareHfw, this`experimentData, this`ticks, this`widgets, this`allSettings
      reads this`abortRequested, this`acquireEnabled, this`collectEnabled, this`abortEnabled, this`summaries
    {
      Shows(q.log, savedBefore, hfwBefore, w0) && abortRequested == q.abortFlag
      && acquireEnabled && collectEnabled && !abortEnabled
      && summaries == summariesBefore + [q.log.rows]
      && Cached()
    }

    /** `collect_stack`: build the settings, read the clock once, disable
        acquire and collect and enable abort, clear the log, run the loop
        of `Stack.Run`, then re-enable the buttons and save the summary.
        The stored state is not restored. `states`, `frames`, `clicks`,
        `clock` and `show` are the inputs of `Stack.Env`. */
    method CollectStack(steps: seq<Step>, states: nat -> MicroscopeState, frames: nat -> nat,
                        clicks: nat -> bool, clock: nat -> string, show: real -> string)
      returns (r: Result<()>)
      modifies this
      ensures SettingsDict(old(widgets)).Err? ==> r == Err(ValueError) && unchanged(this)
      ensures SettingsDict(old(widgets)).Ok? ==>
                var env := Env(old(widgets).sampleName, old(widgets).q1 && old(widgets).q2,
                               states, frames, clicks, clock, show);
                r == Ok(())
                && Finished(Run(env, steps, Progress(Fresh(old(ticks) + 1, old(widgets).hfw), old(abortRequested), false)),
                            old(saved), old(hardwareHfw), old(widgets), old(summaries))
    {
      var ok := StartRun();
      if !ok {
        return Err(ValueError);
      }
      var env := Env(widgets.sampleName, widgets.q1 && widgets.q2, states, frames, clicks, clock, show);
      ghost var p0 := Progress(Fresh(ticks, widgets.hfw), abortRequested, false);
      ghost var savedBefore, hfwBefore, w0, summariesBefore := saved, hardwareHfw, widgets, summaries;
      RunLoop(env, steps, p0, savedBefore, hfwBefore, w0);
      FinishRun(Run(env, steps, p0), savedBefore, hfwBefore, w0, summariesBefore);
      r := Ok(());
    }

    /** The start of `collect_stack`: the settings dictionary built (the
        call fails when the widgets do not parse), the clock read once, the
        acquire and collect buttons disabled and abort enabled, the log
        cleared. */
    method StartRun() returns (ok: bool)
      modifies this`allSettings, this`ticks, this`acquireEnabled, this`collectEnabled, this`abortEnabled
      modifies this`experimentData
      ensures ok == SettingsDict(widgets).Ok?
      ensures !ok ==> unchanged(this)
      ensures ok ==> Cached() && ticks == old(ticks) + 1 && experimentData == []
                     && !acquireEnabled && !collectEnabled && abortEnabled
    {
      var all := CreateSettingsDict();
      if all.Err? {
        return false;
      }
      ticks := ticks + 1;
      acquireEnabled, collectEnabled, abortEnabled := false, false, true;
      experimentData := [];
      ok := true;
    }

    /** The end of `collect_stack`: the buttons back, the log saved as the
        summary. */
    method FinishRun(ghost q: Progress, ghost savedBefore: seq<string>, ghost hfwBefore: seq<real>,
                     ghost w0: Widgets, ghost summariesBefore: seq<seq<Row>>)
      requires Shows(q.log, savedBefore, hfwBefore, w0) && abortRequested == q.abortFlag && Cached()
      requires summaries == summariesBefore
      modifies this`acquireEnabled, this`collectEnabled, this`abortEnabled, this`summaries
      ensures Finished(q, savedBefore, hfwBefore, w0, summariesBefore)
    {
      acquireEnabled, collectEnabled, abortEnabled := true, true, false;
      summaries := summaries + [experimentData];
    }
  }
}
