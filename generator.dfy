/** `ScenarioGenerator`: for one base scenario, every trigger record is
    spliced at every injection point of the scenario's configuration. One
    combination that fails is logged and skipped; the others still produce
    a scenario document. Reading the configuration and the base scenario,
    writing the documents and the report, and the clock are outside the
    model: the loaded configuration, a loader for the base scenario, the
    date and the output directory are parameters. */
module Generator {
  import opened Wrappers
  import opened PyValues
  import opened ScenarioDocument
  import opened FaultInjector
  import opened Validator
  import opened InjectionProperties
  import opened Sequences

  /** `common_settings.injection_points[point]` */
  datatype PointDefaults = PointDefaults(defaultDelay: Option<Value>)

  /** `scenarios[name].injection_points[point]` */
  datatype PointConfig = PointConfig(afterEvent: Option<Value>, delay: Option<Value>)

  /** `scenarios[name]`: the base file and the injection points in file
      order; a point whose configuration is null has None. */
  datatype ScenarioConfig = ScenarioConfig(
    baseFile: Option<string>,
    points: seq<(string, Option<PointConfig>)>)

  /** The loaded `scenario_mappings.yaml` */
  datatype Mappings = Mappings(
    scenarios: map<string, ScenarioConfig>,
    commonPoints: map<string, PointDefaults>)

  /** Why one combination fails (logged, then skipped). */
  datatype SingleError =
    | ConfigNotMapping            // a null point configuration has no `.get`
    | AnchorNotInt                // `after_event` missing or not an int
    | InjectFailed(e: InjectError)

  /** Why the whole run fails before generating anything. */
  datatype GenerateError =
    | UnknownScenario             // the name is not under `scenarios`
    | MissingBaseFile             // `scenario_config["base_file"]` raises KeyError
    | BaseNotLoaded               // the base file cannot be read

  /** A written document: its path and its content. */
  datatype Output = Output(path: string, scenario: Scenario)

  const FallbackDelay: Value := VFloat("3.0")

  /** The delay of a point: its own `delay`, else the common `default_delay`
      of the point's name, else 3.0. */
  function ResolveDelay(cfg: PointConfig, common: map<string, PointDefaults>, point: string): (r: Value)
    ensures cfg.delay.Some? ==> r == cfg.delay.value
    ensures cfg.delay.None? && point in common && common[point].defaultDelay.Some?
      ==> r == common[point].defaultDelay.value
    ensures cfg.delay.None? && (point !in common || common[point].defaultDelay.None?)
      ==> r == FallbackDelay
  {
    var defaultDelay :=
      if point in common && common[point].defaultDelay.Some? then common[point].defaultDelay.value
      else FallbackDelay;
    cfg.delay.GetOr(defaultDelay)
  }

  /** `f"{summary}_{signal_name}_{point}"`, with "" for missing keys. */
  function Summary(base: Scenario, trig: Trigger, point: string): (r: string)
    ensures var summary := Str(base.summary.GetOr(VStr("")));
      |r| > |summary| + |point| && r[..|summary| + 1] == summary + "_" && r[|r| - |point| - 1..] == "_" + point
    ensures base.summary.None? ==> r[0] == '_'
  {
    Str(base.summary.GetOr(VStr(""))) + "_" + Str(trig.signalName.GetOr(VStr(""))) + "_" + point
  }

  /** `f"異常系_{point}"` */
  function Variation(point: string): (r: string)
    ensures |r| == |point| + 4 && r[4..] == point && r[3] == '_'
  {
    "異常系_" + point
  }

  /** `_generate_single_scenario`: the injector's result for the point's
      anchor and resolved delay, with its summary and variation replaced. */
  function SingleScenario(base: Scenario, trig: Trigger, point: string, cfg: Option<PointConfig>,
                          common: map<string, PointDefaults>): (r: Result<Scenario, SingleError>)
    ensures r.Ok? <==>
      && cfg.Some? && cfg.value.afterEvent.Some? && AsInt(cfg.value.afterEvent.value).Some?
      && InjectionResult(base, trig, AsInt(cfg.value.afterEvent.value).value,
                         ResolveDelay(cfg.value, common, point)).Ok?
    ensures r.Ok? ==>
      var injected := InjectionResult(base, trig, AsInt(cfg.value.afterEvent.value).value,
                                      ResolveDelay(cfg.value, common, point)).value;
      && r.value.story == injected.story
      && r.value.summary == Some(VStr(Summary(base, trig, point)))
      && r.value.variation == Some(VStr(Variation(point)))
  {
    if cfg.None? then Err(ConfigNotMapping)
    else
      var after := cfg.value.afterEvent;
      if after.None? || AsInt(after.value).None? then Err(AnchorNotInt)
      else
        match InjectionResult(base, trig, AsInt(after.value).value, ResolveDelay(cfg.value, common, point))
        case Err(e) => Err(InjectFailed(e))
        case Ok(s) => Ok(s.(summary := Some(VStr(Summary(base, trig, point))),
                            variation := Some(VStr(Variation(point)))))
  }

  /** `f"{date}_{base}_{signal_name}_{point}.json"`, with "UNKNOWN" for a
      missing signal name. */
  function FileName(date: string, baseName: string, trig: Trigger, point: string): (r: string)
    ensures var head := date + "_" + baseName + "_";
      |r| >= |head| + |point| + 6 && r[..|head|] == head && r[|r| - 5..] == ".json" && r[|r| - |point| - 6..|r| - 5] == "_" + point
    ensures trig.signalName.None? ==>
      |r| == |date| + |baseName| + |point| + 15 && r[|date| + |baseName| + 2..|date| + |baseName| + 9] == "UNKNOWN"
  {
    date + "_" + baseName + "_" + Str(trig.signalName.GetOr(VStr("UNKNOWN"))) + "_" + point + ".json"
  }

  /** `output_dir / f"{date}_{base}"` */
  function ScenarioDir(outDir: string, date: string, baseName: string): (r: string)
    ensures |r| == |outDir| + |date| + |baseName| + 2
    ensures r[..|outDir|] == outDir && r[|outDir|] == '/'
    ensures r[|outDir| + 1..] == date + "_" + baseName
  {
    outDir + "/" + date + "_" + baseName
  }

  /** The context one run shares among its combinations. */
  datatype Run = Run(
    base: Scenario,
    common: map<string, PointDefaults>,
    date: string,
    baseName: string,
    dir: string)

  /** The document one combination writes, if it succeeds. */
  function CombinationOutput(run: Run, trig: Trigger, point: (string, Option<PointConfig>)): (r: Option<Output>)
    ensures r.Some? <==> SingleScenario(run.base, trig, point.0, point.1, run.common).Ok?
  {
    match SingleScenario(run.base, trig, point.0, point.1, run.common)
    case Err(_) => None
    case Ok(s) => Some(Output(run.dir + "/" + FileName(run.date, run.baseName, trig, point.0), s))
  }

  /** What each point of one trigger yields. */
  function Outcomes(run: Run, trig: Trigger, points: seq<(string, Option<PointConfig>)>): (r: seq<Option<Output>>)
    ensures |r| == |points|
  {
    seq(|points|, j requires 0 <= j < |points| => CombinationOutput(run, trig, points[j]))
  }

  /** The documents of one trigger, point by point. */
  function PointOutputs(run: Run, trig: Trigger, points: seq<(string, Option<PointConfig>)>): seq<Output> {
    Somes(Outcomes(run, trig, points))
  }

  /** The documents of all triggers, trigger by trigger. */
  function TriggerOutputs(run: Run, triggers: seq<Trigger>, points: seq<(string, Option<PointConfig>)>): seq<Output> {
    Concat(triggers, trig => PointOutputs(run, trig, points))
  }

  /** What `generate_scenarios` returns, or the error it raises before
      generating anything. */
  function Generation(m: Mappings, baseName: string, triggers: seq<Trigger>,
                      load: (string, string) -> Option<Scenario>,
                      date: string, outDir: string): Result<seq<Output>, GenerateError> {
    if baseName !in m.scenarios then Err(UnknownScenario)
    else
      var cfg := m.scenarios[baseName];
      if cfg.baseFile.None? then Err(MissingBaseFile)
      else match load(baseName, cfg.baseFile.value)
        case None => Err(BaseNotLoaded)
        case Some(base) =>
          Ok(TriggerOutputs(Run(base, m.commonPoints, date, baseName, ScenarioDir(outDir, date, baseName)),
                            triggers, cfg.points))
  }

  /** `generate_scenarios`: every trigger at every point; a failing
      combination is skipped. */
  method GenerateScenarios(m: Mappings, baseName: string, triggers: seq<Trigger>,
                           load: (string, string) -> Option<Scenario>,
                           date: string, outDir: string)
    returns (r: Result<seq<Output>, GenerateError>)
    ensures r == Generation(m, baseName, triggers, load, date, outDir)
  {
    if baseName !in m.scenarios {
      return Err(UnknownScenario);
    }
    var config := m.scenarios[baseName];
    if config.baseFile.None? {
      return Err(MissingBaseFile);
    }
    var loaded := load(baseName, config.baseFile.value);
    if loaded.None? {
      return Err(BaseNotLoaded);
    }
    var base := loaded.value;
    var points := config.points;
    var dir := ScenarioDir(outDir, date, baseName);
    ghost var run := Run(base, m.commonPoints, date, baseName, dir);
    var generated: seq<Output> := [];
    var t := 0;
    while t < |triggers|
      invariant 0 <= t <= |triggers|
      invariant generated == TriggerOutputs(run, triggers[..t], points)
    {
      var trigger := triggers[t];
      ghost var before := generated;
      var q := 0;
      while q < |points|
        invariant 0 <= q <= |points|
        invariant generated == before + Somes(Outcomes(run, trigger, points)[..q])
      {
        var (pointName, pointConfig) := points[q];
        var single := SingleScenario(base, trigger, pointName, pointConfig, m.commonPoints);
        if single.Ok? {
          var fileName := FileName(date, baseName, trigger, pointName);
          generated := generated + [Output(dir + "/" + fileName, single.value)];
        }
        ghost var outcomes := Outcomes(run, trigger, points);
        assert outcomes[..q + 1][..q] == outcomes[..q];
        q := q + 1;
      }
      assert Outcomes(run, trigger, points)[..q] == Outcomes(run, trigger, points);
      assert triggers[..t + 1][..t] == triggers[..t];
      t := t + 1;
    }
    assert triggers[..t] == triggers;
    return Ok(generated);
  }

  // ---------------------------------------------------------------------------
  // Properties of a run

  /** The number of failing combinations of a run. */
  function Failures(run: Run, triggers: seq<Trigger>, points: seq<(string, Option<PointConfig>)>): nat
    decreases |triggers|
  {
    if triggers == [] then 0
    else Failures(run, triggers[..|triggers| - 1], points) + NoneCount(Outcomes(run, triggers[|triggers| - 1], points))
  }


  lemma MulStep(a: nat, b: nat)
    ensures (a + 1) * b == a * b + b
  {
  }

  /** Every combination either writes one document or counts as one
      failure: generated plus failed is triggers times points. */
  lemma {:induction false} OutputsCount(run: Run, triggers: seq<Trigger>, points: seq<(string, Option<PointConfig>)>)
    ensures |TriggerOutputs(run, triggers, points)| + Failures(run, triggers, points) == |triggers| * |points|
    decreases |triggers|
  {
    if triggers != [] {
      var n := |triggers|;
      OutputsCount(run, triggers[..n - 1], points);
      SomesCount(Outcomes(run, triggers[n - 1], points));
      MulStep(n - 1, |points|);
    }
  }

  /** A document of one trigger comes from a point that succeeded, and every
      point that succeeds writes its document. */
  lemma PointOutputsMembers(run: Run, trig: Trigger, points: seq<(string, Option<PointConfig>)>, o: Output)
    ensures o in PointOutputs(run, trig, points)
        <==> exists j :: 0 <= j < |points| && CombinationOutput(run, trig, points[j]) == Some(o)
  {
    var os := Outcomes(run, trig, points);
    SomesMembers(os, o);
    if Some(o) in os {
      var j :| 0 <= j < |os| && os[j] == Some(o);
      assert CombinationOutput(run, trig, points[j]) == Some(o);
    }
    if exists j :: 0 <= j < |points| && CombinationOutput(run, trig, points[j]) == Some(o) {
      var j :| 0 <= j < |points| && CombinationOutput(run, trig, points[j]) == Some(o);
      assert os[j] == Some(o);
    }
  }

  /** Every document of a run comes from a combination that succeeded. */
  lemma OutputsFromCombinations(run: Run, triggers: seq<Trigger>,
                                points: seq<(string, Option<PointConfig>)>, o: Output)
    requires o in TriggerOutputs(run, triggers, points)
    ensures exists i, j :: 0 <= i < |triggers| && 0 <= j < |points|
              && CombinationOutput(run, triggers[i], points[j]) == Some(o)
  {
    ConcatMembers(triggers, trig => PointOutputs(run, trig, points), o);
    var i :| 0 <= i < |triggers| && o in PointOutputs(run, triggers[i], points);
    PointOutputsMembers(run, triggers[i], points, o);
  }

  /** Every combination that succeeds writes its document in the run. */
  lemma CombinationsInOutputs(run: Run, triggers: seq<Trigger>,
                              points: seq<(string, Option<PointConfig>)>, i: nat, j: nat)
    requires i < |triggers| && j < |points|
    requires CombinationOutput(run, triggers[i], points[j]).Some?
    ensures CombinationOutput(run, triggers[i], points[j]).value in TriggerOutputs(run, triggers, points)
  {
    var o := CombinationOutput(run, triggers[i], points[j]).value;
    PointOutputsMembers(run, triggers[i], points, o);
    ConcatMembers(triggers, trig => PointOutputs(run, trig, points), o);
  }

  /** An unknown scenario name fails the run, and only then is the error
      `UnknownScenario`. */
  lemma UnknownScenarioFails(m: Mappings, baseName: string, triggers: seq<Trigger>,
                             load: (string, string) -> Option<Scenario>, date: string, outDir: string)
    ensures Generation(m, baseName, triggers, load, date, outDir) == Err(UnknownScenario)
        <==> baseName !in m.scenarios
  {
  }

  /** At most one document per trigger and point. */
  lemma GenerationBound(m: Mappings, baseName: string, triggers: seq<Trigger>,
                        load: (string, string) -> Option<Scenario>, date: string, outDir: string)
    requires Generation(m, baseName, triggers, load, date, outDir).Ok?
    ensures |Generation(m, baseName, triggers, load, date, outDir).value|
        <= |triggers| * |m.scenarios[baseName].points|
  {
    var cfg := m.scenarios[baseName];
    var base := load(baseName, cfg.baseFile.value).value;
    OutputsCount(Run(base, m.commonPoints, date, baseName, ScenarioDir(outDir, date, baseName)), triggers, cfg.points);
  }

  /** A combination whose anchor is an event of a valid base scenario
      succeeds, and the document it writes passes `validate_scenario`. */
  lemma GeneratedScenarioValid(base: Scenario, trig: Trigger, point: string, cfg: PointConfig,
                               common: map<string, PointDefaults>, after: int)
    requires ScenarioViolations(base) == []
    requires cfg.afterEvent == Some(VInt(after))
    requires EgoEvents(base).Some? && 1 <= after <= |EgoEvents(base).value|
    requires ShapingKey(trig).Some?
    ensures SingleScenario(base, trig, point, Some(cfg), common).Ok?
    ensures ScenarioViolations(SingleScenario(base, trig, point, Some(cfg), common).value) == []
  {
    var delay := ResolveDelay(cfg, common, point);
    InjectionPreservesValidity(base, trig, after, delay);
    var injected := InjectionResult(base, trig, after, delay).value;
    var r := SingleScenario(base, trig, point, Some(cfg), common).value;
    assert r.story == injected.story;
  }
}
