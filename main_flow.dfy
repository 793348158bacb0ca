/**
  MainRunner.main from its parameters to the argument list it hands to
  Cucumber (lines 487-613): the settings, the scenario list, the driver, the
  grouped plan, the tags, the project and the workspace prefix.
 */
module MainFlow {
  import opened Wrappers
  import opened JavaText
  import opened Params
  import opened Settings
  import FeatureIndex
  import StringOrder
  import opened RunPlan
  import opened DriverSession

  /** The static defaults main starts from (lines 82 and 116). */
  const DefaultBrowser := "firefox"
  const DefaultTimeout := 30

  /** What main decides from its parameters before it reads the scenarios. */
  datatype Config = Config(
    workspace: string, website: Option<string>, remoteOS: string, browser: string,
    browserVersion: string, closeBrowserAtExit: bool, tagCollection: bool, timeout: int)

  /**
    Lines 489-526. Fails only when the timeout parameter is not a number for
    Integer.parseInt (parseInteger here).
   */
  function Configure(env: Env, parseInteger: string -> Option<int>): (r: Result<Config, MainFailure>)
    ensures r.Err? <==> ExParam(env, "timeout").Some? && parseInteger(ExParam(env, "timeout").value).None?
    ensures r.Err? ==> r.error == TimeoutNotNumeric
    ensures r.Ok? ==> r.value.timeout > 0 && r.value.workspace != [] && r.value.workspace[|r.value.workspace| - 1] == '/'
    ensures r.Ok? ==> (r.value.browser == DefaultBrowser <==> ExParam(env, "browser") in {None, Some(DefaultBrowser)})
    ensures r.Ok? && ExParam(env, "browser_version").None? ==>
      r.value.browserVersion == DefaultBrowserVersion(r.value.browser, Some(r.value.remoteOS))
  {
    var remoteOS := if ExParam(env, "remote_os").Some? then ExParam(env, "remote_os").value else "Windows 7";
    var browser := if ExParam(env, "browser").Some? then ExParam(env, "browser").value else DefaultBrowser;
    var browserVersion := if ExParam(env, "browser_version").Some? then ExParam(env, "browser_version").value
      else DefaultBrowserVersion(browser, Some(remoteOS));
    var timeout := UpdateTimeout(DefaultTimeout, ExParam(env, "timeout"), parseInteger);
    if timeout.None? then Err(TimeoutNotNumeric)
    else
      UpdateTimeoutStable(DefaultTimeout, ExParam(env, "timeout"), parseInteger);
      Ok(Config(
        NormalizeWorkspace(ExParam(env, "WORKSPACE")), ExParam(env, "website"), remoteOS, browser,
        browserVersion, !IsDebug(ExParam(env, "DEBUG")), TagCollection(ExParam(env, "tag_collection")), timeout.value))
  }

  /** Lines 528-530: how a failed scenario list ends main. */
  function ScenarioFailureOf(f: FeatureIndex.ScenarioFailure): MainFailure
  {
    match f
    case ScanCutBeforeStart => ScenarioCutBeforeStart
    case ScanHangs => ScenarioScanHangs
    case NoFeaturePath(_) => FeatureTokenHasNoPath
  }

  /** Line 532: how a driver that was not started ends main. */
  function DriverFailureOf(a: Acquired): MainFailure
    requires !a.Created?
  {
    match a
    case InitThrew(_) => DriverInitFailed
    case NoProxyPort(_) => ProxyPortsTaken
    case _ => BrowserGaveUp
  }

  /** The scenario list main works on. */
  function Scenarios(env: Env): Result<seq<string>, FeatureIndex.ScenarioFailure>
  {
    FeatureIndex.FeatureScenarios(ExParam(env, "scenarios"))
  }

  /** order lists the feature files of the scenario list, as the map's iteration does. */
  predicate OrderFits(env: Env, order: seq<string>)
  {
    Scenarios(env).Ok? ==> IsListing(order, Group(Scenarios(env).value).Keys)
  }

  /**
    Lines 556-613 once the scenarios are known: the plan, the tags, the
    project and the prefix, or the failure of the project derivation.
   */
  function Assemble(featureScenarios: seq<string>, order: seq<string>, env: Env, workspace: string, fileExists: string -> bool)
    : (r: Result<seq<string>, MainFailure>)
    requires IsListing(order, Group(featureScenarios).Keys)
    ensures r.Err? ==> r.error == ProjectPartsMissing
  {
    match Project(ExParam(env, "project"), FirstScenario(featureScenarios))
    case Err(e) => Err(e)
    case Ok(project) =>
      Ok(Arguments(PlanFor(featureScenarios, order), ExParam(env, "tags"), project, workspace, fileExists))
  }

  /** The specification of main up to the call of Cucumber: the argument list, or how main ends before it. */
  function MainResult(
    env: Env, parseInteger: string -> Option<int>, fileExists: string -> bool,
    acquired: Acquired, order: seq<string>): Result<seq<string>, MainFailure>
    requires OrderFits(env, order)
  {
    match Configure(env, parseInteger)
    case Err(e) => Err(e)
    case Ok(config) =>
      match Scenarios(env)
      case Err(f) => Err(ScenarioFailureOf(f))
      case Ok(featureScenarios) =>
        if !acquired.Created? then Err(DriverFailureOf(acquired))
        else Assemble(featureScenarios, order, env, config.workspace, fileExists)
  }

  /**
    Lines 487-613 as main runs them, on a session without a driver. The
    driver start is getWebDriver's, and the HashMap order is chosen freely.
   */
  method RunMain(
    env: Env, parseInteger: string -> Option<int>, fileExists: string -> bool,
    gherkin: string -> seq<FeatureIndex.Feature>, parseInt: string -> Option<int>,
    index: FeatureIndex.ScenarioIndex, session: Session,
    disableProxy: bool, portStarts: (nat, int) -> bool, initOk: nat -> bool, resizeOk: nat -> bool)
    returns (r: Result<seq<string>, MainFailure>, ghost order: seq<string>)
    requires !session.driverActive
    modifies index, session
    ensures OrderFits(env, order)
    ensures r == MainResult(env, parseInteger, fileExists,
      AttemptFrom(0, disableProxy, portStarts, initOk, resizeOk), order)
  {
    order := [];
    if Scenarios(env).Ok? {
      order := ListingOf(Group(Scenarios(env).value).Keys);
    }
    var config := Configure(env, parseInteger);
    if config.Err? {
      return Err(config.error), order;
    }
    var workspaceParam := GetExParams(env, "WORKSPACE");
    var scenarios := GetExParams(env, "scenarios");
    var featureScenarios := index.GetFeatureScenarios(scenarios, workspaceParam, fileExists, gherkin, parseInt);
    if featureScenarios.Err? {
      return Err(ScenarioFailureOf(featureScenarios.error)), order;
    }
    var acquired := session.Acquire(disableProxy, portStarts, initOk, resizeOk);
    if !acquired.Created? {
      return Err(DriverFailureOf(acquired)), order;
    }
    r, order := AssembleArguments(featureScenarios.value, env, config.value.workspace, fileExists);
  }

  /** Lines 533-613 as main runs them, from the sorted scenario list on. */
  method AssembleArguments(featureScenarios: seq<string>, env: Env, workspace: string, fileExists: string -> bool)
    returns (r: Result<seq<string>, MainFailure>, ghost order: seq<string>)
    requires workspace != []
    ensures IsListing(order, Group(featureScenarios).Keys)
    ensures r == Assemble(featureScenarios, order, env, workspace, fileExists)
  {
    var plan;
    plan, order := GroupPlan(featureScenarios);
    var tags := GetExParams(env, "tags");
    var withTags := plan + TagsPart(tags);
    var projectParam := GetExParams(env, "project");
    var project := Project(projectParam, FirstScenario(featureScenarios));
    if project.Err? {
      return Err(project.error), order;
    }
    var args := PrefixWorkspace(withTags, workspace, fileExists);
    r := Ok(args + GluePart(project.value));
  }

  /** No plan entry is "--tags" unless the scenario list itself held one. */
  lemma PlanHasNoTags(featureScenarios: seq<string>, order: seq<string>)
    requires IsListing(order, Group(featureScenarios).Keys)
    requires "--tags" !in featureScenarios
    ensures "--tags" !in PlanFor(featureScenarios, order)
  {
    var plan := PlanFor(featureScenarios, order);
    if order != [] {
      forall i | 0 <= i < |plan| ensures plan[i] != "--tags" {
        var key := order[i];
        assert plan[i] == Entry(key, Group(featureScenarios)[key]);
      }
    } else if featureScenarios != [] {
      assert featureScenarios[0] in featureScenarios;
    }
  }

  /**
    A list main hands to Cucumber starts with the plan entries resolved
    against the workspace (when no scenario token is "--tags" itself) and
    ends with the glue and the HTML report plugin.
   */
  lemma MainLayout(
    env: Env, parseInteger: string -> Option<int>, fileExists: string -> bool,
    acquired: Acquired, order: seq<string>)
    requires OrderFits(env, order)
    requires MainResult(env, parseInteger, fileExists, acquired, order).Ok?
    ensures acquired.Created? && Configure(env, parseInteger).Ok? && Scenarios(env).Ok?
    ensures var args := MainResult(env, parseInteger, fileExists, acquired, order).value;
      |args| >= 4 && args[|args| - 3..] == ["db.shared.steps", "--plugin", "html:logs"]
    ensures var args := MainResult(env, parseInteger, fileExists, acquired, order).value;
      var featureScenarios := Scenarios(env).value;
      var plan := PlanFor(featureScenarios, order);
      var workspace := Configure(env, parseInteger).value.workspace;
      "--tags" !in featureScenarios ==>
        |plan| <= |args| && forall i :: 0 <= i < |plan| ==> args[i] == Prefixed(plan[i], workspace, fileExists)
  {
    var featureScenarios := Scenarios(env).value;
    var workspace := Configure(env, parseInteger).value.workspace;
    assert MainResult(env, parseInteger, fileExists, acquired, order) ==
      Assemble(featureScenarios, order, env, workspace, fileExists);
    AssembleLayout(featureScenarios, order, env, workspace, fileExists);
  }

  /** The layout of an assembled argument list: prefixed plan entries first, the glue last. */
  lemma AssembleLayout(featureScenarios: seq<string>, order: seq<string>, env: Env, workspace: string, fileExists: string -> bool)
    requires IsListing(order, Group(featureScenarios).Keys) && workspace != []
    requires Assemble(featureScenarios, order, env, workspace, fileExists).Ok?
    ensures var args := Assemble(featureScenarios, order, env, workspace, fileExists).value;
      |args| >= 4 && args[|args| - 3..] == ["db.shared.steps", "--plugin", "html:logs"]
    ensures var args := Assemble(featureScenarios, order, env, workspace, fileExists).value;
      var plan := PlanFor(featureScenarios, order);
      "--tags" !in featureScenarios ==>
        |plan| <= |args| && forall i :: 0 <= i < |plan| ==> args[i] == Prefixed(plan[i], workspace, fileExists)
  {
    var project := Project(ExParam(env, "project"), FirstScenario(featureScenarios)).value;
    var plan := PlanFor(featureScenarios, order);
    var args := Assemble(featureScenarios, order, env, workspace, fileExists).value;
    assert args == Arguments(plan, ExParam(env, "tags"), project, workspace, fileExists);
    var glue := GluePart(project);
    assert args[|args| - |glue|..] == glue;
    assert args[|args| - 3..] == glue[|glue| - 3..];
    if "--tags" !in featureScenarios {
      PlanHasNoTags(featureScenarios, order);
      ArgumentsLayout(plan, ExParam(env, "tags"), project, workspace, fileExists);
    }
  }

  /**
    Without a scenarios parameter and without a usable project parameter,
    a main that got its driver fails on the project derivation: the first
    scenario is "", which has no six parts.
   */
  lemma MainWithoutScenarios(
    env: Env, parseInteger: string -> Option<int>, fileExists: string -> bool,
    acquired: Acquired, order: seq<string>)
    requires OrderFits(env, order)
    requires ExParam(env, "scenarios").None? && EnvProject(ExParam(env, "project")).None?
    requires Configure(env, parseInteger).Ok? && acquired.Created?
    ensures MainResult(env, parseInteger, fileExists, acquired, order) == Err(ProjectPartsMissing)
  {
    assert StringOrder.Sort([]) == [];
    assert Scenarios(env) == Ok([]);
    ProjectNeedsSixParts("");
  }
}
