/** What a pipeline configuration asks for (pkg/pipeline/parser.go), as steps that build a graph. */
module PipelineSpec {
  import opened Collections
  import opened Tasks
  import opened GraphSpec

  /** Images, commands, environments and caches are not part of the model. */
  datatype TaskConfig = TaskConfig(id: string, name: string, condition: string, dependsOn: seq<string>, need: Need)

  datatype Tool = Tool(name: string, image: string)

  datatype ToolSet = ToolSet(enabled: bool, tools: seq<Tool>)

  datatype Sonar = Sonar(enabled: bool, serverURL: string, projectKey: string)

  datatype Review = Review(enabled: bool, provider: string, apiKeySecret: string, serverURL: string)

  datatype Config = Config(
    defaults: Need, tasks: seq<TaskConfig>,
    linters: Option<ToolSet>, sonar: Option<Sonar>, security: Option<ToolSet>, review: Option<Review>)

  datatype Result<+T, +E> = Ok(value: T) | Err(error: E)

  datatype ConfigError =
    | EmptyTask
    | DuplicateTask(id: string)
    | MissingTask(parent: string, child: string)
    | DependsOnItself(id: string)
    | UnknownLinter(name: string)
    | UnknownScanner(name: string)
    | NoSonarServer
    | NoSonarProject
    | NoReviewKey(provider: string)
    | CyclicPipeline

  datatype Step =
    | Declare(id: string, policy: Policy, need: Need)            // a task of the user's
    | Depend(parent: string, child: string)                      // a dependency of the user's
    | Integrate(id: string, need: Need, after: seq<string>)      // to run after those of the tasks that exist
    | Refuse(error: ConfigError)

  const EMPTY: Shape := Shape(map[], map[], map[], map[])

  /** Adds the dependencies of an integration task on the tasks that exist. */
  function Wire(g: Shape, after: seq<string>, id: string): Shape
    requires id in g.deps
    decreases |after|
  {
    if after == [] then g
    else
      var h := Wire(g, after[..|after| - 1], id);
      var p := after[|after| - 1];
      if p in h.edges && id in h.deps then h.WithEdge(p, id) else h
  }

  function Apply(g: Shape, s: Step): Result<Shape, ConfigError> {
    match s
    case Declare(id, policy, need) =>
      if id == "" then Err(EmptyTask)
      else if id in g.edges then Err(DuplicateTask(id))
      else Ok(g.WithTask(id, policy, need))
    case Depend(p, c) =>
      if p !in g.edges || c !in g.deps then Err(MissingTask(p, c))
      else if p == c then Err(DependsOnItself(c))
      else Ok(g.WithEdge(p, c))
    case Integrate(id, need, after) =>
      if id in g.edges then Err(DuplicateTask(id))
      else Ok(Wire(g.WithTask(id, OnSuccess, need), after, id))
    case Refuse(e) => Err(e)
  }

  /** Stops at the first error. */
  function Exec(steps: seq<Step>): Result<Shape, ConfigError> {
    if steps == [] then Ok(EMPTY)
    else
      match Exec(steps[..|steps| - 1])
      case Err(e) => Err(e)
      case Ok(g) => Apply(g, steps[|steps| - 1])
  }

  // ----- the steps of a configuration -----

  function OrDefault(n: Need, d: Need): Need {
    Need(if n.cpu == 0 then d.cpu else n.cpu,
         if n.memory == 0 then d.memory else n.memory,
         if n.disk == 0 then d.disk else n.disk)
  }

  function Declarations(tasks: seq<TaskConfig>, d: Need): (steps: seq<Step>)
    ensures |steps| == |tasks|
  {
    seq(|tasks|, i requires 0 <= i < |tasks| =>
      Declare(tasks[i].id, PolicyOf(tasks[i].condition), OrDefault(tasks[i].need, d)))
  }

  function Dependencies(t: TaskConfig): (steps: seq<Step>)
    ensures |steps| == |t.dependsOn|
  {
    seq(|t.dependsOn|, i requires 0 <= i < |t.dependsOn| => Depend(t.dependsOn[i], t.id))
  }

  function AllDependencies(tasks: seq<TaskConfig>): seq<Step> {
    if tasks == [] then []
    else AllDependencies(tasks[..|tasks| - 1]) + Dependencies(tasks[|tasks| - 1])
  }

  /** The tools that have an image of their own. */
  predicate HasDefaultImage(name: string) {
    || name == "golangci-lint" || name == "eslint" || name == "ruff" || name == "pylint" || name == "rubocop"
    || name == "shellcheck" || name == "hadolint" || name == "trivy" || name == "grype" || name == "semgrep"
    || name == "gosec" || name == "sonarqube" || name == "code-review"
  }

  predicate HasImage(t: Tool) {
    t.image != "" || HasDefaultImage(t.name)
  }

  function AtLeast(n: uint32, least: uint32): uint32 {
    if n < least then least else n
  }

  function LinterStep(t: Tool, d: Need): Step {
    if HasImage(t) then Integrate("lint-" + t.name, d.(memory := AtLeast(d.memory, 2048)), ["clone"])
    else Refuse(UnknownLinter(t.name))
  }

  function LinterSteps(cfg: Config): seq<Step> {
    if cfg.linters.None? || !cfg.linters.value.enabled then []
    else
      var tools := cfg.linters.value.tools;
      seq(|tools|, i requires 0 <= i < |tools| => LinterStep(tools[i], cfg.defaults))
  }

  function SonarSteps(cfg: Config): seq<Step> {
    if cfg.sonar.None? || !cfg.sonar.value.enabled then []
    else if cfg.sonar.value.serverURL == "" then [Refuse(NoSonarServer)]
    else if cfg.sonar.value.projectKey == "" then [Refuse(NoSonarProject)]
    else [Integrate("sonarqube", Need(2000, 2048, cfg.defaults.disk), ["compile", "test", "build", "clone"])]
  }

  function ScannerStep(t: Tool, d: Need): Step {
    if HasImage(t) then Integrate("security-" + t.name, d.(memory := 1024), ["clone"])
    else Refuse(UnknownScanner(t.name))
  }

  function SecuritySteps(cfg: Config): seq<Step> {
    if cfg.security.None? || !cfg.security.value.enabled then []
    else
      var tools := cfg.security.value.tools;
      seq(|tools|, i requires 0 <= i < |tools| => ScannerStep(tools[i], cfg.defaults))
  }

  function ProviderOf(r: Review): string {
    if r.provider == "" then "anthropic" else r.provider
  }

  function ReviewSteps(cfg: Config): seq<Step> {
    if cfg.review.None? || !cfg.review.value.enabled then []
    else
      var r := cfg.review.value;
      if r.serverURL == "" && ProviderOf(r) != "ollama" && r.apiKeySecret == ""
      then [Refuse(NoReviewKey(ProviderOf(r)))]
      else [Integrate("review-pr", cfg.defaults.(memory := 512), ["clone"])]
  }

  /** What the user declares. */
  function UserSteps(cfg: Config): seq<Step> {
    Declarations(cfg.tasks, cfg.defaults) + AllDependencies(cfg.tasks)
  }

  /** What is added for the configured integrations. */
  function AutoSteps(cfg: Config): seq<Step> {
    LinterSteps(cfg) + SonarSteps(cfg) + SecuritySteps(cfg) + ReviewSteps(cfg)
  }

  function Program(cfg: Config): seq<Step> {
    UserSteps(cfg) + AutoSteps(cfg)
  }

  // ----- running the steps -----

  lemma ExecLast(steps: seq<Step>, s: Step)
    ensures Exec(steps + [s]) ==
      match Exec(steps)
      case Err(e) => Err(e)
      case Ok(g) => Apply(g, s)
  {
    assert (steps + [s])[..|steps|] == steps;
  }

  /** Nothing comes after an error. */
  lemma {:induction false} ExecStops(steps: seq<Step>, more: seq<Step>)
    requires Exec(steps).Err?
    ensures Exec(steps + more) == Exec(steps)
    decreases |more|
  {
    if more == [] {
      assert steps + more == steps;
    } else {
      ExecStops(steps, more[..|more| - 1]);
      ExecLast(steps + more[..|more| - 1], more[|more| - 1]);
      assert steps + more == steps + more[..|more| - 1] + [more[|more| - 1]];
    }
  }

  /** The same, along a list of steps. */
  lemma ExecStep(before: seq<Step>, steps: seq<Step>, i: nat)
    requires i < |steps|
    ensures Exec(before + steps[..i + 1]) ==
      match Exec(before + steps[..i])
      case Err(e) => Err(e)
      case Ok(g) => Apply(g, steps[i])
  {
    ExecLast(before + steps[..i], steps[i]);
    assert before + steps[..i + 1] == before + steps[..i] + [steps[i]];
  }

  lemma ExecFails(before: seq<Step>, steps: seq<Step>, i: nat)
    requires i <= |steps| && Exec(before + steps[..i]).Err?
    ensures Exec(before + steps) == Exec(before + steps[..i])
  {
    ExecStops(before + steps[..i], steps[i..]);
    assert before + steps == before + steps[..i] + steps[i..];
  }

  lemma ExecEnds(before: seq<Step>, steps: seq<Step>)
    ensures before + steps[..0] == before && before + steps[..|steps|] == before + steps
  {
  }

  lemma {:induction false} EdgesWired(g: Shape, after: seq<string>, id: string)
    requires g.Valid() && id in g.edges && id !in after
    ensures var h := Wire(g, after, id);
      && h.Valid() && h.Ids() == g.Ids() && h.policy == g.policy
      && forall p, c :: h.Edge(p, c) <==> g.Edge(p, c) || (c == id && p in after && p in g.edges)
    decreases |after|
  {
    if after != [] {
      var init, p := after[..|after| - 1], after[|after| - 1];
      assert after == init + [p];
      EdgesWired(g, init, id);
      var h := Wire(g, init, id);
      if p in h.edges {
        WithEdgeValid(h, p, id);
      }
    }
  }

  lemma {:induction false} ExecValid(steps: seq<Step>)
    requires forall i :: 0 <= i < |steps| && steps[i].Integrate? ==> steps[i].id !in steps[i].after
    requires Exec(steps).Ok?
    ensures Exec(steps).value.Valid()
    decreases |steps|
  {
    if steps != [] {
      var init, s := steps[..|steps| - 1], steps[|steps| - 1];
      ExecValid(init);
      var g := Exec(init).value;
      match s
      case Declare(id, policy, need) => WithTaskValid(g, id, policy, need);
      case Depend(p, c) => WithEdgeValid(g, p, c);
      case Integrate(id, need, after) =>
        WithTaskValid(g, id, OnSuccess, need);
        EdgesWired(g.WithTask(id, OnSuccess, need), after, id);
      case Refuse(e) =>
    }
  }
}
