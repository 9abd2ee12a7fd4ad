/** What `collect_stack`'s inner `_run_loop` does, as a function of its
    inputs: a list of `(hfw, enabled, magnification)` steps, run in order; each
    enabled step acquires and saves one image (single quadrant) or one
    image per returned frame (both quadrants), appending one log row per
    saved file; after every step the abort flag is checked. The acquisition,
    the state capture, the clock, the abort clicks and `str(hfw)` are
    inputs. */
module Stack {
  import opened Base
  import opened Text
  import opened Rules

  /** One entry of the list of field widths to use. */
  datatype Step = Step(hfw: real, enabled: bool, magnification: string)

  /** One row of `experiment_data`: the state columns, the file name and
      the time of the row. */
  datatype Row = Row(
    x: real, y: real, z: real, t: real, r: real,
    hfw: real, scanRotation: real, brightness: real, contrast: real,
    beamShiftX: real, beamShiftY: real,
    fileName: string, timestamp: string)

  /** `populate_experiment_data_frame`: the state's columns with the file
      name and timestamp. */
  function LogRow(s: MicroscopeState, fileName: string, timestamp: string): (row: Row)
    ensures row.fileName == fileName && row.timestamp == timestamp
    ensures row.x == s.x && row.y == s.y && row.z == s.z && row.t == s.t && row.r == s.r
    ensures row.hfw == s.hfw && row.scanRotation == s.scanRotation
    ensures row.brightness == s.brightness && row.contrast == s.contrast
    ensures row.beamShiftX == s.beamShiftX && row.beamShiftY == s.beamShiftY
  {
    Row(s.x, s.y, s.z, s.t, s.r, s.hfw, s.scanRotation, s.brightness, s.contrast,
        s.beamShiftX, s.beamShiftY, fileName, timestamp)
  }

  /** The world the loop runs in. `states(i)` is the state captured at the
      start of step `i`, `frames(i)` the number of frames the multi-frame
      acquisition of step `i` returns, `clicks(i)` whether the abort button
      is clicked while step `i` processes events, `clock(n)` the timestamp
      the `n`-th reading of the clock gives, `show(h)` the text `str(h)`. */
  datatype Env = Env(
    sample: string,
    dual: bool,
    states: nat -> MicroscopeState,
    frames: nat -> nat,
    clicks: nat -> bool,
    clock: nat -> string,
    show: real -> string)

  /** What the loop has produced: the counter, the clock readings so far,
      the files saved, the log rows, the field widths handed to the
      hardware, the field-width spin box and the number of steps run. */
  datatype Log = Log(
    counter: nat,
    ticks: nat,
    files: seq<string>,
    rows: seq<Row>,
    hardwareHfw: seq<real>,
    hfwWidget: real,
    executed: nat)

  datatype Progress = Progress(log: Log, abortFlag: bool, stopped: bool)

  // ------------------------------------------------------------ file names

  function FrameSuffix(frame: Option<nat>): string
  {
    match frame
    case None => ""
    case Some(ii) => NatToString(ii) + "_"
  }

  /** `'%06d_' % counter + sample + '_' + str(hfw) + '_' + timestamp + '.tif'`,
      with `str(ii) + '_'` before the timestamp for frame `ii`. */
  function FileName(counter: nat, sample: string, hfwText: string, frame: Option<nat>, stamp: string): string
  {
    Pad06(counter) + "_" + sample + "_" + hfwText + "_" + FrameSuffix(frame) + stamp + ".tif"
  }

  /** The counter can be read back from a file name: it is the text before
      the first underscore. */
  lemma FileNameCounter(counter: nat, sample: string, hfwText: string, frame: Option<nat>, stamp: string)
    ensures Split(FileName(counter, sample, hfwText, frame, stamp), '_')[0] == Pad06(counter)
    ensures ParseNat(Split(FileName(counter, sample, hfwText, frame, stamp), '_')[0]) == Some(counter)
  {
    var p := Pad06(counter);
    Pad06Digits(counter);
    var rest := sample + "_" + hfwText + "_" + FrameSuffix(frame) + stamp + ".tif";
    assert FileName(counter, sample, hfwText, frame, stamp) == p + ['_'] + rest;
    assert '_' !in p by { assert forall i :: 0 <= i < |p| ==> IsDigit(p[i]); }
    SplitAt(p, rest, '_');
  }

  /** Files with different counters have different names. */
  lemma FileNamesDiffer(c1: nat, c2: nat, sample1: string, sample2: string, h1: string, h2: string,
                        f1: Option<nat>, f2: Option<nat>, stamp1: string, stamp2: string)
    requires c1 != c2
    ensures FileName(c1, sample1, h1, f1, stamp1) != FileName(c2, sample2, h2, f2, stamp2)
  {
    FileNameCounter(c1, sample1, h1, f1, stamp1);
    FileNameCounter(c2, sample2, h2, f2, stamp2);
  }

  /** A common prefix and suffix cancel. */
  lemma CancelAround(p: string, x: string, y: string, t: string)
    requires p + x + t == p + y + t
    ensures x == y
  {
    var u, v := p + x + t, p + y + t;
    assert |x| == |y|;
    assert x == u[|p|..|p| + |x|];
    assert y == v[|p|..|p| + |y|];
  }

  /** Within one step the frame number tells the names apart. */
  lemma FrameNamesDiffer(counter: nat, sample: string, hfwText: string, a: nat, b: nat, stamp: string)
    requires a != b
    ensures FileName(counter, sample, hfwText, Some(a), stamp) != FileName(counter, sample, hfwText, Some(b), stamp)
  {
    var p := Pad06(counter) + "_" + sample + "_" + hfwText + "_";
    var tail := "_" + stamp + ".tif";
    var na, nb := NatToString(a), NatToString(b);
    assert FileName(counter, sample, hfwText, Some(a), stamp) == p + na + tail;
    assert FileName(counter, sample, hfwText, Some(b), stamp) == p + nb + tail;
    NatToStringRoundTrip(a);
    NatToStringRoundTrip(b);
    if p + na + tail == p + nb + tail {
      CancelAround(p, na, nb, tail);
    }
  }

  /** The names of the frames `0 .. k-1` of one multi-frame acquisition. */
  function FrameNames(counter: nat, sample: string, hfwText: string, stamp: string, k: nat): (names: seq<string>)
    ensures |names| == k
    ensures forall ii :: 0 <= ii < k ==> names[ii] == FileName(counter, sample, hfwText, Some(ii), stamp)
  {
    if k == 0 then []
    else FrameNames(counter, sample, hfwText, stamp, k - 1) + [FileName(counter, sample, hfwText, Some(k - 1), stamp)]
  }

  /** The log rows of those frames: the same state, one clock reading each. */
  function FrameRows(s: MicroscopeState, names: seq<string>, clock: nat -> string, t0: nat): (rows: seq<Row>)
    ensures |rows| == |names|
    ensures forall ii :: 0 <= ii < |names| ==> rows[ii] == LogRow(s, names[ii], clock(t0 + ii))
  {
    if names == [] then []
    else FrameRows(s, names[..|names| - 1], clock, t0) + [LogRow(s, names[|names| - 1], clock(t0 + |names| - 1))]
  }

  /** One more frame adds its name at the end. */
  lemma FrameNamesNext(counter: nat, sample: string, hfwText: string, stamp: string, k: nat)
    ensures FrameNames(counter, sample, hfwText, stamp, k + 1)
            == FrameNames(counter, sample, hfwText, stamp, k) + [FileName(counter, sample, hfwText, Some(k), stamp)]
  {
  }

  /** `[f(0), .., f(k-1)]`. */
  function Tabulate<T>(f: nat -> T, k: nat): (s: seq<T>)
    ensures |s| == k && forall j :: 0 <= j < k ==> s[j] == f(j)
  {
    if k == 0 then [] else Tabulate(f, k - 1) + [f(k - 1)]
  }

  /** The frame names are the format applied to `0 .. k-1`. */
  lemma FrameNamesTabulate(counter: nat, sample: string, hfwText: string, stamp: string, k: nat)
    ensures FrameNames(counter, sample, hfwText, stamp, k)
            == Tabulate((ii: nat) => FileName(counter, sample, hfwText, Some(ii), stamp), k)
  {
    var a := FrameNames(counter, sample, hfwText, stamp, k);
    var b := Tabulate((ii: nat) => FileName(counter, sample, hfwText, Some(ii), stamp), k);
    forall j | 0 <= j < k ensures a[j] == b[j] {
    }
  }

  /** One more frame adds one row, read at the next clock tick. */
  lemma FrameRowsStep(s: MicroscopeState, names: seq<string>, name: string, clock: nat -> string, t0: nat)
    ensures FrameRows(s, names + [name], clock, t0) == FrameRows(s, names, clock, t0) + [LogRow(s, name, clock(t0 + |names|))]
  {
    assert (names + [name])[..|names|] == names;
  }

  // ------------------------------------------------------------ one step

  /** The start of an enabled step: the spin box shows `hfw`, the clock is
      read once for the file names, the hardware is given `hfw * 1e-6`, and
      the counter advances. */
  function Begin(log: Log, step: Step): Log
  {
    log.(counter := log.counter + 1, ticks := log.ticks + 1,
         hardwareHfw := log.hardwareHfw + [Micro(step.hfw)], hfwWidget := step.hfw)
  }

  /** The files step `i` saves: one name for a single quadrant, one per
      frame for both. */
  function StepNames(env: Env, log: Log, step: Step, i: nat): seq<string>
  {
    var stamp := env.clock(log.ticks);
    if !env.dual then [FileName(log.counter, env.sample, env.show(step.hfw), None, stamp)]
    else FrameNames(log.counter, env.sample, env.show(step.hfw), stamp, env.frames(i))
  }

  /** `names` saved in order, each with a row of state `s` and a clock
      reading of its own. */
  function Record(log: Log, s: MicroscopeState, names: seq<string>, clock: nat -> string): Log
  {
    log.(ticks := log.ticks + |names|, files := log.files + names,
         rows := log.rows + FrameRows(s, names, clock, log.ticks))
  }

  /** An enabled step `i`. */
  function Acquire(env: Env, log: Log, step: Step, i: nat): Log
  {
    Record(Begin(log, step), env.states(i), StepNames(env, log, step, i), env.clock)
  }

  /** Step `i` of the list, enabled or not. */
  function Perform(env: Env, log: Log, step: Step, i: nat): Log
  {
    (if step.enabled then Acquire(env, log, step, i) else log).(executed := log.executed + 1)
  }

  /** The steps `steps`, at positions `0 ..`, all performed. */
  function Acquisitions(env: Env, steps: seq<Step>, log: Log): Log
    decreases |steps|
  {
    if steps == [] then log
    else Perform(env, Acquisitions(env, steps[..|steps| - 1], log), steps[|steps| - 1], |steps| - 1)
  }

  /** Step `i` followed by the abort check: a flag set by then stops the
      loop and is cleared. */
  function StepOnce(env: Env, p: Progress, step: Step, i: nat): Progress
  {
    var log := Perform(env, p.log, step, i);
    if p.abortFlag || env.clicks(i) then Progress(log, false, true) else Progress(log, false, false)
  }

  /** `_run_loop` over `steps` from `p`. */
  function Run(env: Env, steps: seq<Step>, p: Progress): Progress
    decreases |steps|
  {
    if steps == [] then p
    else
      var q := Run(env, steps[..|steps| - 1], p);
      if q.stopped then q else StepOnce(env, q, steps[|steps| - 1], |steps| - 1)
  }

  /** The abort check after step `j` finds the flag set: it was clicked
      during that step, or, for the first step, it was already set. */
  predicate AbortAt(env: Env, flag: bool, j: nat)
  {
    env.clicks(j) || (j == 0 && flag)
  }

  // ------------------------------------------------------------ counting

  function EnabledCount(steps: seq<Step>): (n: nat)
    ensures n <= |steps|
  {
    if steps == [] then 0
    else EnabledCount(steps[..|steps| - 1]) + (if steps[|steps| - 1].enabled then 1 else 0)
  }

  /** The field widths of the enabled steps, in order. */
  function EnabledHfws(steps: seq<Step>): (hs: seq<real>)
    ensures |hs| == EnabledCount(steps)
  {
    if steps == [] then []
    else EnabledHfws(steps[..|steps| - 1]) + (if steps[|steps| - 1].enabled then [steps[|steps| - 1].hfw] else [])
  }

  /** The number of frames the enabled steps return in dual mode. */
  function FrameTotal(env: Env, steps: seq<Step>): nat
  {
    if steps == [] then 0
    else FrameTotal(env, steps[..|steps| - 1]) + (if steps[|steps| - 1].enabled then env.frames(|steps| - 1) else 0)
  }

  // ------------------------------------------------------------ properties

  lemma {:induction false} AcquisitionsExecuted(env: Env, steps: seq<Step>, log: Log)
    ensures Acquisitions(env, steps, log).executed == log.executed + |steps|
    decreases |steps|
  {
    if steps != [] {
      AcquisitionsExecuted(env, steps[..|steps| - 1], log);
    }
  }

  /** `q` is what running `steps` from `p` can leave: `k` steps run, the
      first `k - 1` without the flag found set, and the loop stopped exactly
      when it was found set after step `k - 1`. */
  predicate StopsAfter(env: Env, steps: seq<Step>, p: Progress, q: Progress)
  {
    var k := q.log.executed - p.log.executed;
    0 <= k <= |steps|
    && q.log == Acquisitions(env, steps[..k], p.log)
    && (forall j :: 0 <= j < k - 1 ==> !AbortAt(env, p.abortFlag, j))
    && (q.stopped <==> k > 0 && AbortAt(env, p.abortFlag, k - 1))
    && (!q.stopped ==> k == |steps|)
    && q.abortFlag == (k == 0 && p.abortFlag)
  }

  lemma StopsAfterStopped(env: Env, steps: seq<Step>, p: Progress)
    requires steps != [] && !p.stopped
    requires var init := steps[..|steps| - 1];
             StopsAfter(env, init, p, Run(env, init, p)) && Run(env, init, p).stopped
    ensures StopsAfter(env, steps, p, Run(env, steps, p))
  {
    var init := steps[..|steps| - 1];
    var q := Run(env, init, p);
    var k := q.log.executed - p.log.executed;
    assert init[..k] == steps[..k];
  }

  lemma StopsAfterRunning(env: Env, steps: seq<Step>, p: Progress)
    requires steps != [] && !p.stopped
    requires var init := steps[..|steps| - 1];
             StopsAfter(env, init, p, Run(env, init, p)) && !Run(env, init, p).stopped
    ensures StopsAfter(env, steps, p, Run(env, steps, p))
  {
    var n := |steps|;
    var init := steps[..n - 1];
    var q := Run(env, init, p);
    assert init[..n - 1] == init;
    assert steps[..n] == steps;
    var r := Run(env, steps, p);
    assert r == StepOnce(env, q, steps[n - 1], n - 1);
    assert r.log == Acquisitions(env, steps, p.log);
    assert r.log.executed - p.log.executed == n;
  }

  lemma {:induction false} RunStopsAfter(env: Env, steps: seq<Step>, p: Progress)
    requires !p.stopped
    ensures StopsAfter(env, steps, p, Run(env, steps, p))
    decreases |steps|
  {
    if steps == [] {
      assert steps[..0] == [];
    } else {
      var init := steps[..|steps| - 1];
      RunStopsAfter(env, init, p);
      if Run(env, init, p).stopped {
        StopsAfterStopped(env, steps, p);
      } else {
        StopsAfterRunning(env, steps, p);
      }
    }
  }

  /** The loop runs the steps up to and including the first one after which
      the flag is found set, and stops there with the flag cleared; if there
      is none it runs them all. What it has produced is exactly what those
      steps produce. */
  lemma RunStops(env: Env, steps: seq<Step>, p: Progress)
    requires !p.stopped
    ensures var q := Run(env, steps, p);
            var k := q.log.executed - p.log.executed;
            0 <= k <= |steps|
            && q.log == Acquisitions(env, steps[..k], p.log)
            && (forall j :: 0 <= j < k - 1 ==> !AbortAt(env, p.abortFlag, j))
            && (q.stopped <==> k > 0 && AbortAt(env, p.abortFlag, k - 1))
            && (!q.stopped ==> k == |steps|)
            && q.abortFlag == (k == 0 && p.abortFlag)
  {
    RunStopsAfter(env, steps, p);
  }

  /** Running one more step of the list. */
  lemma RunNext(env: Env, steps: seq<Step>, p: Progress, i: nat)
    requires i < |steps|
    ensures var q := Run(env, steps[..i], p);
            Run(env, steps[..i + 1], p) == if q.stopped then q else StepOnce(env, q, steps[i], i)
  {
    assert steps[..i + 1][..i] == steps[..i];
  }

  /** Once the loop has stopped, the steps after it change nothing. */
  lemma {:induction false} RunStopsHere(env: Env, steps: seq<Step>, p: Progress, i: nat)
    requires i <= |steps| && Run(env, steps[..i], p).stopped
    ensures Run(env, steps, p) == Run(env, steps[..i], p)
    decreases |steps|
  {
    if i < |steps| {
      var n := |steps|;
      assert steps[..n - 1][..i] == steps[..i];
      RunStopsHere(env, steps[..n - 1], p, i);
    } else {
      assert steps[..i] == steps;
    }
  }

  /** The log a run starts from: nothing saved yet, the clock read `ticks`
      times so far, the spin box at `hfwWidget`. */
  function Fresh(ticks: nat, hfwWidget: real): Log
  {
    Log(0, ticks, [], [], [], hfwWidget, 0)
  }

  /** Aborts aside, the counter advances once per enabled step and the
      hardware is given each enabled step's field width times 1e-6, in
      order. */
  lemma {:induction false} AcquisitionsCounter(env: Env, steps: seq<Step>, t0: nat, w: real)
    ensures var a := Acquisitions(env, steps, Fresh(t0, w));
            a.counter == EnabledCount(steps)
            && |a.hardwareHfw| == EnabledCount(steps)
            && (forall j :: 0 <= j < |a.hardwareHfw| ==> a.hardwareHfw[j] == Micro(EnabledHfws(steps)[j]))
    decreases |steps|
  {
    if steps != [] {
      var init := steps[..|steps| - 1];
      AcquisitionsCounter(env, init, t0, w);
    }
  }

  /** Single quadrant, enabled step number `j` (counting enabled steps
      only) of a run that started with `t0` clock readings and has reached
      `a`: its file is named with counter `j`, the field width `hfws[j]` and
      clock reading `t0 + 2 * j`, and its log row names that file and
      carries the next clock reading. */
  predicate SingleEntry(env: Env, t0: nat, a: Log, hfws: seq<real>, j: nat)
  {
    j < |hfws| && j < |a.files| && j < |a.rows|
    && a.files[j] == FileName(j, env.sample, env.show(hfws[j]), None, env.clock(t0 + 2 * j))
    && a.rows[j].fileName == a.files[j]
    && a.rows[j].timestamp == env.clock(t0 + 2 * j + 1)
  }

  /** An entry survives appending files, rows and field widths. */
  lemma SingleEntryKept(env: Env, t0: nat, a0: Log, a: Log, hs0: seq<real>, hs: seq<real>, j: nat)
    requires SingleEntry(env, t0, a0, hs0, j)
    requires |hs0| <= |hs| && hs[..|hs0|] == hs0
    requires |a0.files| <= |a.files| && a.files[..|a0.files|] == a0.files
    requires |a0.rows| <= |a.rows| && a.rows[..|a0.rows|] == a0.rows
    ensures SingleEntry(env, t0, a, hs, j)
  {
    assert hs[j] == hs0[j];
    assert a.files[j] == a0.files[j];
    assert a.rows[j] == a0.rows[j];
  }

  /** The entry of the step that has just run. */
  lemma SingleEntryAdded(env: Env, t0: nat, a0: Log, a: Log, hs: seq<real>, hfw: real, j: nat)
    requires j == |a0.files| == |a0.rows| && |hs| == j + 1 && hs[j] == hfw
    requires a0.counter == j && a0.ticks == t0 + 2 * j
    requires |a.files| == j + 1 && |a.rows| == j + 1
    requires a.files[j] == FileName(a0.counter, env.sample, env.show(hfw), None, env.clock(a0.ticks))
    requires a.rows[j].fileName == a.files[j]
    requires a.rows[j].timestamp == env.clock(a0.ticks + 1)
    ensures SingleEntry(env, t0, a, hs, j)
  {
  }

  /** One single-quadrant step, spelled out. */
  lemma PerformSingle(env: Env, log: Log, step: Step, i: nat)
    requires !env.dual
    ensures var name := FileName(log.counter, env.sample, env.show(step.hfw), None, env.clock(log.ticks));
            Perform(env, log, step, i)
              == if step.enabled
                 then Log(log.counter + 1, log.ticks + 2, log.files + [name],
                          log.rows + [LogRow(env.states(i), name, env.clock(log.ticks + 1))],
                          log.hardwareHfw + [Micro(step.hfw)], step.hfw, log.executed + 1)
                 else log.(executed := log.executed + 1)
  {
    var name := FileName(log.counter, env.sample, env.show(step.hfw), None, env.clock(log.ticks));
    assert FrameRows(env.states(i), [name], env.clock, log.ticks + 1)
           == [LogRow(env.states(i), name, env.clock(log.ticks + 1))];
  }

  /** Single quadrant: each enabled step adds one file and one row and reads
      the clock twice. */
  lemma {:induction false} SingleModeCounts(env: Env, steps: seq<Step>, t0: nat, w: real)
    requires !env.dual
    ensures var a := Acquisitions(env, steps, Fresh(t0, w));
            |a.files| == EnabledCount(steps) && |a.rows| == EnabledCount(steps)
            && a.ticks == t0 + 2 * EnabledCount(steps)
    decreases |steps|
  {
    if steps != [] {
      var n := |steps|;
      SingleModeCounts(env, steps[..n - 1], t0, w);
      PerformSingle(env, Acquisitions(env, steps[..n - 1], Fresh(t0, w)), steps[n - 1], n - 1);
    }
  }

  /** Single quadrant: each enabled step saves exactly one file and logs
      exactly one row for it, as `SingleEntry` says, whatever disabled
      steps lie between. */
  lemma {:induction false} SingleModeFiles(env: Env, steps: seq<Step>, t0: nat, w: real)
    requires !env.dual
    ensures var a := Acquisitions(env, steps, Fresh(t0, w));
            forall j :: 0 <= j < EnabledCount(steps) ==> SingleEntry(env, t0, a, EnabledHfws(steps), j)
    decreases |steps|
  {
    if steps != [] {
      var n := |steps|;
      var init, last := steps[..n - 1], steps[n - 1];
      SingleModeFiles(env, init, t0, w);
      SingleModeCounts(env, init, t0, w);
      AcquisitionsCounter(env, init, t0, w);
      var a0 := Acquisitions(env, init, Fresh(t0, w));
      PerformSingle(env, a0, last, n - 1);
      var a := Acquisitions(env, steps, Fresh(t0, w));
      var m := EnabledCount(init);
      var hs0, hs := EnabledHfws(init), EnabledHfws(steps);
      assert a.files[..|a0.files|] == a0.files;
      assert a.rows[..|a0.rows|] == a0.rows;
      assert hs[..|hs0|] == hs0;
      forall j | 0 <= j < EnabledCount(steps)
        ensures SingleEntry(env, t0, a, hs, j)
      {
        if j < m {
          SingleEntryKept(env, t0, a0, a, hs0, hs, j);
        } else {
          SingleEntryAdded(env, t0, a0, a, hs, last.hfw, j);
        }
      }
    }
  }

  /** Both quadrants: one file and one row per returned frame, the rows in
      the order of the files; each enabled step reads the clock once more
      for its file names. */
  lemma {:induction false} DualModeFiles(env: Env, steps: seq<Step>, t0: nat, w: real)
    requires env.dual
    ensures var a := Acquisitions(env, steps, Fresh(t0, w));
            var n := FrameTotal(env, steps);
            |a.files| == n && |a.rows| == n
            && a.ticks == t0 + EnabledCount(steps) + n
            && (forall j :: 0 <= j < |a.rows| ==> a.rows[j].fileName == a.files[j])
    decreases |steps|
  {
    if steps != [] {
      var init := steps[..|steps| - 1];
      DualModeFiles(env, init, t0, w);
    }
  }

  /** Two entries of one run name different files. */
  lemma EntriesDiffer(env: Env, t0: nat, a: Log, hs: seq<real>, j1: nat, j2: nat)
    requires SingleEntry(env, t0, a, hs, j1) && SingleEntry(env, t0, a, hs, j2) && j1 != j2
    ensures a.files[j1] != a.files[j2]
  {
    FileNamesDiffer(j1, j2, env.sample, env.sample, env.show(hs[j1]), env.show(hs[j2]), None, None,
                    env.clock(t0 + 2 * j1), env.clock(t0 + 2 * j2));
  }

  /** Single quadrant: no file of a run overwrites another file of the same
      run. */
  lemma SingleModeNamesDistinct(env: Env, steps: seq<Step>, t0: nat, w: real)
    requires !env.dual
    ensures var a := Acquisitions(env, steps, Fresh(t0, w));
            forall j1, j2 :: 0 <= j1 < j2 < |a.files| ==> a.files[j1] != a.files[j2]
  {
    SingleModeCounts(env, steps, t0, w);
    SingleModeFiles(env, steps, t0, w);
    var a := Acquisitions(env, steps, Fresh(t0, w));
    forall j1, j2 | 0 <= j1 < j2 < |a.files|
      ensures a.files[j1] != a.files[j2]
    {
      EntriesDiffer(env, t0, a, EnabledHfws(steps), j1, j2);
    }
  }

  /** Single quadrant: the `j`-th file of a run starts with counter `j`. */
  lemma SingleModeCounter(env: Env, steps: seq<Step>, t0: nat, w: real, j: nat)
    requires !env.dual && j < EnabledCount(steps)
    ensures var a := Acquisitions(env, steps, Fresh(t0, w));
            j < |a.files| && ParseNat(Split(a.files[j], '_')[0]) == Some(j)
  {
    SingleModeCounts(env, steps, t0, w);
    SingleModeFiles(env, steps, t0, w);
    var a := Acquisitions(env, steps, Fresh(t0, w));
    var hs := EnabledHfws(steps);
    assert SingleEntry(env, t0, a, hs, j);
    FileNameCounter(j, env.sample, env.show(hs[j]), None, env.clock(t0 + 2 * j));
  }

  // ------------------------------------------------------------ an example

  /** The list `[(100, True, A), (50, False, B), (25, True, C)]`. */
  const Example: seq<Step> := [Step(100.0, true, "A"), Step(50.0, false, "B"), Step(25.0, true, "C")]

  lemma ExampleCounts(env: Env)
    ensures EnabledCount(Example) == 2 && EnabledHfws(Example) == [100.0, 25.0]
    ensures (forall i: nat :: env.frames(i) == 2) ==> FrameTotal(env, Example) == 4
  {
    var s1, s2 := [Step(100.0, true, "A")], [Step(100.0, true, "A"), Step(50.0, false, "B")];
    assert Example[..2] == s2 && s2[..1] == s1 && s1[..0] == [];
    assert EnabledCount(s1) == 1 && EnabledHfws(s1) == [100.0];
    assert EnabledCount(s2) == 1 && EnabledHfws(s2) == [100.0];
    assert FrameTotal(env, s1) == env.frames(0);
    assert FrameTotal(env, s2) == env.frames(0);
    assert FrameTotal(env, Example) == env.frames(0) + env.frames(2);
  }

  /** Without aborts the loop runs every step of the example. */
  lemma ExampleRunsAll(env: Env, t0: nat, w: real)
    requires forall i: nat :: !env.clicks(i)
    ensures Run(env, Example, Progress(Fresh(t0, w), false, false))
            == Progress(Acquisitions(env, Example, Fresh(t0, w)), false, false)
  {
    var p := Progress(Fresh(t0, w), false, false);
    RunStops(env, Example, p);
    var q := Run(env, Example, p);
    var k := q.log.executed - p.log.executed;
    if k > 0 {
      assert !AbortAt(env, false, k - 1);
    }
    assert !q.stopped && k == 3;
    assert Example[..3] == Example;
  }

  /** Single quadrant: the example's two files carry counters 0 and 1. */
  lemma ExampleSingle(env: Env, t0: nat, w: real)
    requires !env.dual
    ensures var a := Acquisitions(env, Example, Fresh(t0, w));
            |a.files| == 2 && |a.rows| == 2
            && ParseNat(Split(a.files[0], '_')[0]) == Some(0)
            && ParseNat(Split(a.files[1], '_')[0]) == Some(1)
  {
    ExampleCounts(env);
    SingleModeCounts(env, Example, t0, w);
    SingleModeCounter(env, Example, t0, w, 0);
    SingleModeCounter(env, Example, t0, w, 1);
  }

  /** Without aborts, the example saves two files in single-quadrant mode,
      with counters 0 and 1, and four in dual mode with two frames a step. */
  lemma ExampleRun(env: Env, t0: nat, w: real)
    requires forall i: nat :: !env.clicks(i)
    requires !env.dual || forall i: nat :: env.frames(i) == 2
    ensures var q := Run(env, Example, Progress(Fresh(t0, w), false, false));
            !q.stopped && q.log.counter == 2
            && (!env.dual ==>
                  |q.log.files| == 2 && |q.log.rows| == 2
                  && ParseNat(Split(q.log.files[0], '_')[0]) == Some(0)
                  && ParseNat(Split(q.log.files[1], '_')[0]) == Some(1))
            && (env.dual ==> |q.log.files| == 4 && |q.log.rows| == 4)
  {
    ExampleRunsAll(env, t0, w);
    ExampleCounts(env);
    AcquisitionsCounter(env, Example, t0, w);
    if !env.dual {
      ExampleSingle(env, t0, w);
    } else {
      DualModeFiles(env, Example, t0, w);
    }
  }
}
