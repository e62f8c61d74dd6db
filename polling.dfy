/** test_gtmetrix: poll each theme's GTMetrix test until it ends, store the final
    response on the theme, then fetch its screenshot. The HTTP responses are
    inputs: a test's poll responses are a finite script, and sleeping is a
    counter of seconds. */
module Polling {
  import opened Wrappers
  import opened ThemeData
  import opened Naming

  const Completed := "completed"
  const ErrorState := "error"
  /** `test_state` before the first poll. */
  const InitialState := "just started"
  /** Seconds slept after each poll response that is not `completed`, and after
      each screenshot download. */
  const PollInterval := 6

  /** The loop condition of test_gtmetrix, negated. */
  predicate Terminal(state: string) { state == Completed || state == ErrorState }

  /** How polling a script of responses ends: at a terminal response, or with
      the script used up while the test was still pending (the real loop has no
      cap and would go on waiting). */
  datatype PollOutcome =
    | Finished(data: GtmetrixData, polls: nat, sleeps: nat, totalRunTime: nat)
    | Exhausted(polls: nat, sleeps: nat, totalRunTime: nat)

  /** Reference definition of the poll loop: one response at a time. Polling stops
      at the first `completed` or `error` response; every response except a
      `completed` one is followed by a 6-second sleep, a final `error` included. */
  function PollSpec(script: seq<GtmetrixData>): (o: PollOutcome)
    ensures o.totalRunTime == PollInterval * o.sleeps
    ensures o.Finished? <==> exists k :: 0 <= k < |script| && Terminal(script[k].state)
    ensures o.Finished? ==>
      && 1 <= o.polls <= |script|
      && o.data == script[o.polls - 1]
      && Terminal(o.data.state)
      && (forall j :: 0 <= j < o.polls - 1 ==> !Terminal(script[j].state))
      && o.sleeps == (if o.data.state == Completed then o.polls - 1 else o.polls)
    ensures o.Exhausted? ==> o.polls == o.sleeps == |script|
  {
    if script == [] then Exhausted(0, 0, 0)
    else if script[0].state == Completed then Finished(script[0], 1, 0, 0)
    else if script[0].state == ErrorState then Finished(script[0], 1, 1, PollInterval)
    else
      var rest := script[1..];
      assert forall k :: 1 <= k < |script| ==> script[k] == rest[k - 1];
      match PollSpec(rest)
      case Finished(d, p, s, t) =>
        assert exists k :: 0 <= k < |rest| && Terminal(rest[k].state);
        Finished(d, p + 1, s + 1, t + PollInterval)
      case Exhausted(p, s, t) => Exhausted(p + 1, s + 1, t + PollInterval)
  }

  /** The while loop of test_gtmetrix over a scripted sequence of poll responses. */
  method Poll(script: seq<GtmetrixData>) returns (o: PollOutcome)
    ensures o == PollSpec(script)
  {
    var testState := InitialState;
    var totalRunTime := 0;
    var sleeps := 0;
    var gtmetrixData := GtmetrixData(InitialState, None, None);
    var i := 0;
    while testState != Completed && testState != ErrorState && i < |script|
      invariant 0 <= i <= |script|
      invariant i == 0 ==> testState == InitialState
      invariant i > 0 ==> gtmetrixData == script[i - 1] && testState == gtmetrixData.state
      invariant forall j :: 0 <= j < i - 1 ==> !Terminal(script[j].state)
      invariant sleeps == (if i > 0 && testState == Completed then i - 1 else i)
      invariant totalRunTime == PollInterval * sleeps
    {
      gtmetrixData := script[i];
      testState := gtmetrixData.state;
      if testState != Completed {
        sleeps := sleeps + 1;
        totalRunTime := totalRunTime + PollInterval;
      }
      i := i + 1;
    }
    if Terminal(testState) {
      o := Finished(gtmetrixData, i, sleeps, totalRunTime);
    } else {
      o := Exhausted(i, sleeps, totalRunTime);
    }
  }

  function Response(state: string): GtmetrixData { GtmetrixData(state, None, None) }

  /** Three sleeps (18 seconds) before a test completes on the fourth poll. */
  lemma PollCompletesAfterThreeWaits()
    ensures PollSpec([Response("queued"), Response("started"), Response("started"), Response(Completed)])
         == Finished(Response(Completed), 4, 3, 18)
  {
    var script := [Response("queued"), Response("started"), Response("started"), Response(Completed)];
    assert PollSpec(script[3..]) == Finished(Response(Completed), 1, 0, 0);
    assert PollSpec(script[2..]) == Finished(Response(Completed), 2, 1, 6);
    assert PollSpec(script[1..]) == Finished(Response(Completed), 3, 2, 12);
  }

  /** An `error` response ends the loop, after one more sleep. */
  lemma PollErrorStillSleeps()
    ensures PollSpec([Response("queued"), Response(ErrorState)]) == Finished(Response(ErrorState), 2, 2, 12)
  {
  }

  /** What a theme's test has as input: the saved response of an earlier run
      (read-only mode; None when the file is missing), the scripted poll
      responses of a live run, and whether the screenshot download succeeds. */
  datatype GtInput = GtInput(stored: Option<GtmetrixData>, script: seq<GtmetrixData>, screenshotOk: bool)

  /** Why test_gtmetrix stops before the last theme. */
  datatype Stop = Raised(error: Error) | Hung

  /** The theme after its test, the seconds slept for it, and whether the
      batch stops there. */
  datatype Step = Step(theme: Theme, slept: nat, stop: Option<Stop>)

  /** Lines 208-227: `theme['gtmetrix'] = gtmetrix_data`, then the screenshot URL
      lookup, then (unless read-only) the download and a courtesy sleep. */
  function Record(t: Theme, data: GtmetrixData, slept: nat, readonly: bool, screenshotOk: bool): (s: Step)
    ensures s.theme == t.(gtmetrix := Some(data))
    ensures data.resources.None? ==> s.stop == Some(Raised(KeyError("resources"))) && s.slept == slept
    ensures data.resources.Some? ==> (s.stop == Some(Raised(HTTPError)) <==> !readonly && !screenshotOk)
    ensures s.stop.None? <==> data.resources.Some? && (readonly || screenshotOk)
    ensures s.stop.None? ==> s.slept == slept + (if readonly then 0 else PollInterval)
  {
    var stored := t.(gtmetrix := Some(data));
    if data.resources.None? then Step(stored, slept, Some(Raised(KeyError("resources"))))
    else if readonly then Step(stored, slept, None)
    else if !screenshotOk then Step(stored, slept, Some(Raised(HTTPError)))
    else Step(stored, slept + PollInterval, None)
  }

  /** One iteration of test_gtmetrix's loop over the themes. */
  function TestStep(t: Theme, input: GtInput, readonly: bool): (s: Step)
  {
    if readonly then
      match input.stored
      case None => Step(t, 0, Some(Raised(IOError(GtDataFilename(t.entry.slug)))))
      case Some(d) => Record(t, d, 0, true, input.screenshotOk)
    else
      match PollSpec(input.script)
      case Exhausted(_, _, time) => Step(t, time, Some(Hung))
      case Finished(d, _, _, time) => Record(t, d, time, false, input.screenshotOk)
  }

  /** What one theme's test does: the catalog entry is never touched and only the
      `gtmetrix` key is written; a theme that passes has a result with resources,
      and a result without them stops the batch with KeyError; a live run's
      failed screenshot download stops it with HTTPError, and a live step that
      passes sleeps 6 seconds more than its polling;
      in read-only mode the saved result is used as it is (a missing file stops
      the batch with an IOError); in a live run the stored result is the first
      terminal poll response, which may be an `error` one, and a script without
      one means the loop never ends. */
  lemma TestStepEffects(t: Theme, input: GtInput, readonly: bool)
    ensures var s := TestStep(t, input, readonly);
      && s.theme.entry == t.entry
      && (s.stop.None? ==> s.theme.gtmetrix.Some? && s.theme.gtmetrix.value.resources.Some?)
      && (readonly && input.stored.None? ==> s == Step(t, 0, Some(Raised(IOError(GtDataFilename(t.entry.slug))))))
      && (readonly && input.stored.Some? ==> s.theme.gtmetrix == input.stored && s.slept == 0)
      && (!readonly ==> (s.stop == Some(Hung) <==> PollSpec(input.script).Exhausted?))
      && (!readonly && s.stop != Some(Hung) ==>
            s.theme.gtmetrix == Some(PollSpec(input.script).data) && Terminal(s.theme.gtmetrix.value.state))
      && (readonly && input.stored.Some? && input.stored.value.resources.None? ==>
            s.stop == Some(Raised(KeyError("resources"))))
      && (!readonly && PollSpec(input.script).Finished? && PollSpec(input.script).data.resources.None? ==>
            s.stop == Some(Raised(KeyError("resources"))))
      && (!readonly && PollSpec(input.script).Finished? && PollSpec(input.script).data.resources.Some? ==>
            (s.stop == Some(Raised(HTTPError)) <==> !input.screenshotOk))
      && (readonly && s.stop.None? ==> s.slept == 0)
      && (!readonly && s.stop.None? ==> s.slept == PollSpec(input.script).totalRunTime + PollInterval)
  {
  }

  /** The step of each theme of a batch, as if every theme were reached. */
  function Steps(themes: seq<Theme>, inputs: seq<GtInput>, readonly: bool): (r: seq<Step>)
    requires |themes| == |inputs|
    ensures |r| == |themes|
  {
    seq(|themes|, j requires 0 <= j < |themes| => TestStep(themes[j], inputs[j], readonly))
  }

  /** Seconds slept over a run of steps. */
  function Slept(steps: seq<Step>): nat {
    if steps == [] then 0 else Slept(steps[..|steps| - 1]) + steps[|steps| - 1].slept
  }

  /** The body of test_gtmetrix's loop for one theme, up to the point where the
      result is stored back. */
  method RunTest(theme: Theme, input: GtInput, readonly: bool) returns (s: Step)
    ensures s == TestStep(theme, input, readonly)
  {
    var gtmetrixData: GtmetrixData;
    var spent := 0;
    if readonly {
      if input.stored.None? {
        return Step(theme, 0, Some(Raised(IOError(GtDataFilename(theme.entry.slug)))));
      }
      gtmetrixData := input.stored.value;
    } else {
      var o := Poll(input.script);
      spent := o.totalRunTime;
      if o.Exhausted? {
        return Step(theme, spent, Some(Hung));
      }
      gtmetrixData := o.data;
    }
    // Save the result to the theme object
    var updated := theme.(gtmetrix := Some(gtmetrixData));
    if gtmetrixData.resources.None? {
      return Step(updated, spent, Some(Raised(KeyError("resources"))));
    }
    if !readonly {
      if !input.screenshotOk {
        return Step(updated, spent, Some(Raised(HTTPError)));
      }
      spent := spent + PollInterval;
    }
    s := Step(updated, spent, None);
  }

  /** The theme list after the first `k` steps have been stored back. */
  function After(before: seq<Theme>, steps: seq<Step>, k: nat): (r: seq<Theme>)
    requires k <= |steps| == |before|
    ensures |r| == |before|
  {
    seq(|before|, j requires 0 <= j < |before| => if j < k then steps[j].theme else before[j])
  }

  /** test_gtmetrix over the theme list, which it updates in place. It returns
      how many themes finished, the seconds slept, and why it stopped early, if
      it did; `readonly` is the parameter or'ed with the dry-run flag. Each theme
      reached is replaced by its step's theme; the batch stops at the first step
      that stops, and the themes after it are untouched. */
  method TestGtmetrix(themes: array<Theme>, inputs: seq<GtInput>, readonly: bool)
      returns (done: nat, slept: nat, stop: Option<Stop>)
    requires |inputs| == themes.Length
    modifies themes
    ensures var steps := Steps(old(themes[..]), inputs, readonly);
      var reached := if stop.None? then done else done + 1;
      && reached <= themes.Length
      && (stop.None? <==> done == themes.Length)
      && (forall j :: 0 <= j < done ==> steps[j].stop.None?)
      && (stop.Some? ==> stop == steps[done].stop)
      && themes[..] == After(old(themes[..]), steps, reached)
      && slept == Slept(steps[..reached])
  {
    ghost var before := themes[..];
    ghost var steps := Steps(before, inputs, readonly);
    slept := 0;
    var i := 0;
    while i < themes.Length
      invariant 0 <= i <= themes.Length
      invariant forall j :: 0 <= j < i ==> steps[j].stop.None?
      invariant themes[..] == After(before, steps, i)
      invariant slept == Slept(steps[..i])
    {
      var step := RunTest(themes[i], inputs[i], readonly);
      assert step == steps[i];
      assert steps[..i + 1][..i] == steps[..i];
      themes[i] := step.theme;
      assert themes[..] == After(before, steps, i + 1);
      slept := slept + step.slept;
      if step.stop.Some? {
        return i, slept, step.stop;
      }
      i := i + 1;
    }
    return i, slept, None;
  }
}
