/** Building the graph of a pipeline (pkg/pipeline/parser.go). Each method performs some of the
    steps that PipelineSpec lists, in their order, on one graph. */
module Pipelines {
  import opened Collections
  import opened Tasks
  import opened GraphSpec
  import opened Graphs
  import opened Cycles
  import opened PipelineSpec
  import opened PipelineMeaning
  import opened PipelineErrors

  /** A graph that is being built: every task is Pending. */
  ghost predicate Unstarted(g: Graph)
    reads g, g.tasks.Values
  {
    g.Valid() && g.States() == Initial(g.shape)
  }

  /** What a method has done: all of its steps, or none after the first error. */
  ghost predicate Done(g: Graph, steps: seq<Step>, err: Option<ConfigError>)
    reads g, g.tasks.Values
  {
    match err
    case None => Unstarted(g) && Exec(steps) == Ok(g.shape)
    case Some(e) => Exec(steps) == Err(e)
  }

  /** The task with this id has this name and this condition. */
  ghost predicate Named(g: Graph, id: string, name: string, condition: string)
    reads g`tasks
  {
    id in g.tasks && g.tasks[id].name == name && g.tasks[id].condition == condition
  }

  twostate predicate TasksKept(g: Graph)
    reads g`tasks
  {
    forall x :: x in old(g.tasks) ==> x in g.tasks && g.tasks[x] == old(g.tasks[x])
  }

  lemma InitialWithTask(g: Shape, x: string, p: Policy, n: Need)
    ensures Initial(g.WithTask(x, p, n)) == Initial(g)[x := Pending]
  {
  }

  lemma InitialWithEdge(g: Shape, p: string, c: string)
    requires p in g.edges && c in g.deps
    ensures Initial(g.WithEdge(p, c)) == Initial(g)
  {
  }

  lemma AboutIds(g: Graph)
    requires g.Valid()
    ensures g.tasks.Keys == g.shape.edges.Keys == g.shape.deps.Keys
  {
  }

  method AddTask(g: Graph, id: string, name: string, condition: string, need: Need) returns (added: bool)
    requires Unstarted(g)
    modifies g`tasks, g`edges, g`deps, g`shape
    ensures Unstarted(g) && added == (id != "" && id !in old(g.shape).edges)
    ensures g.shape == if added then old(g.shape).WithTask(id, PolicyOf(condition), need) else old(g.shape)
    ensures TasksKept(g) && (added ==> Named(g, id, name, condition))
    ensures fresh(g.tasks.Values - old(g.tasks.Values))
  {
    hide Describes, PolicyOf, Initial;
    AboutIds(g);
    InitialWithTask(g.shape, id, PolicyOf(condition), need);
    var task := new Task(id, name, condition, need);
    var refused := g.AddTask(task);
    added := refused.None?;
  }

  method AddEdge(g: Graph, p: string, c: string) returns (err: Option<GraphError>)
    requires Unstarted(g)
    modifies g`edges, g`deps, g`shape
    ensures Unstarted(g)
    ensures err == if p !in old(g.shape).edges then Some(ParentNotFound)
                   else if c !in old(g.shape).edges then Some(ChildNotFound)
                   else if p == c then Some(SelfDependency) else None
    ensures g.shape == if err.None? then old(g.shape).WithEdge(p, c) else old(g.shape)
  {
    AboutIds(g);
    if p in g.tasks && c in g.tasks {
      InitialWithEdge(g.shape, p, c);
    }
    err := g.AddEdge(p, c);
    AboutIds(g);
    hide Describes, Initial;
  }

  // ----- the user's tasks -----

  lemma DeclareStep(cfg: Config, i: nat, g: Shape)
    requires i < |cfg.tasks| && Exec(Declarations(cfg.tasks, cfg.defaults)[..i]) == Ok(g)
    ensures var steps, t := Declarations(cfg.tasks, cfg.defaults), cfg.tasks[i];
      && (t.id == "" ==> Exec(steps) == Err(EmptyTask))
      && (t.id != "" && t.id in g.edges ==> Exec(steps) == Err(DuplicateTask(t.id)))
      && (t.id != "" && t.id !in g.edges ==>
            Exec(steps[..i + 1]) == Ok(g.WithTask(t.id, PolicyOf(t.condition), OrDefault(t.need, cfg.defaults))))
  {
    var steps := Declarations(cfg.tasks, cfg.defaults);
    assert [] + steps[..i] == steps[..i] && [] + steps[..i + 1] == steps[..i + 1] && [] + steps == steps;
    ExecStep([], steps, i);
    if Exec(steps[..i + 1]).Err? {
      ExecFails([], steps, i + 1);
    }
    hide PolicyOf, Exec;
  }

  /** Every task is there under its own name, or its id if it has none. */
  ghost predicate AllNamed(g: Graph, tasks: seq<TaskConfig>)
    reads g`tasks
  {
    forall t :: t in tasks ==> Named(g, t.id, if t.name == "" then t.id else t.name, t.condition)
  }

  lemma ExecNothing()
    ensures Exec([]) == Ok(EMPTY)
  {
  }

  method DeclareTasks(g: Graph, cfg: Config) returns (err: Option<ConfigError>)
    requires Unstarted(g) && g.shape == EMPTY
    modifies g`tasks, g`edges, g`deps, g`shape
    ensures Done(g, Declarations(cfg.tasks, cfg.defaults), err)
    ensures err.None? ==> AllNamed(g, cfg.tasks)
    ensures fresh(g.tasks.Values - old(g.tasks.Values))
  {
    hide Exec, Declarations, OrDefault, PolicyOf, Unstarted, Shape.WithTask;
    ghost var steps := Declarations(cfg.tasks, cfg.defaults);
    assert steps[..0] == [] && steps[..|cfg.tasks|] == steps;
    ExecNothing();
    for i := 0 to |cfg.tasks|
      invariant Unstarted(g) && Exec(steps[..i]) == Ok(g.shape) && fresh(g.tasks.Values - old(g.tasks.Values))
      invariant AllNamed(g, cfg.tasks[..i])
    {
      var tc := cfg.tasks[i];
      DeclareStep(cfg, i, g.shape);
      var name := if tc.name == "" then tc.id else tc.name;
      var added := AddTask(g, tc.id, name, tc.condition, OrDefault(tc.need, cfg.defaults));
      if !added {
        return Some(if tc.id == "" then EmptyTask else DuplicateTask(tc.id));
      }
      assert cfg.tasks[..i + 1] == cfg.tasks[..i] + [tc];
    }
    assert cfg.tasks[..|cfg.tasks|] == cfg.tasks;
    return None;
  }

  // ----- the user's dependencies -----

  lemma DependStep(before: seq<Step>, t: TaskConfig, i: nat, g: Shape)
    requires i < |t.dependsOn| && g.edges.Keys == g.deps.Keys && Exec(before + Dependencies(t)[..i]) == Ok(g)
    ensures var steps, p := Dependencies(t), t.dependsOn[i];
      && (p !in g.edges || t.id !in g.edges ==> Exec(before + steps) == Err(MissingTask(p, t.id)))
      && (p in g.edges && p == t.id ==> Exec(before + steps) == Err(DependsOnItself(t.id)))
      && (p in g.edges && t.id in g.edges && p != t.id ==> Exec(before + steps[..i + 1]) == Ok(g.WithEdge(p, t.id)))
  {
    var steps := Dependencies(t);
    ExecStep(before, steps, i);
    if Exec(before + steps[..i + 1]).Err? {
      ExecFails(before, steps, i + 1);
    }
    hide Exec;
  }

  /** The dependencies of one task. */
  method Connect(g: Graph, t: TaskConfig, ghost before: seq<Step>) returns (err: Option<ConfigError>)
    requires Unstarted(g) && Exec(before) == Ok(g.shape)
    modifies g`edges, g`deps, g`shape
    ensures Done(g, before + Dependencies(t), err)
  {
    ghost var steps := Dependencies(t);
    ExecEnds(before, steps);
    hide Exec, Dependencies, Unstarted, Describes;
    for i := 0 to |t.dependsOn|
      invariant Unstarted(g) && Exec(before + steps[..i]) == Ok(g.shape)
    {
      var p := t.dependsOn[i];
      SameIds(g);
      DependStep(before, t, i, g.shape);
      var refused := AddEdge(g, p, t.id);
      if refused.Some? {
        return Some(if refused.value == SelfDependency then DependsOnItself(t.id) else MissingTask(p, t.id));
      }
    }
    return None;
  }

  lemma SameIds(g: Graph)
    requires Unstarted(g)
    ensures g.tasks.Keys == g.shape.edges.Keys == g.shape.deps.Keys
  {
    AboutIds(g);
  }

  lemma {:induction false} DependenciesSplit(tasks: seq<TaskConfig>, i: nat) returns (rest: seq<Step>)
    requires i <= |tasks|
    ensures AllDependencies(tasks) == AllDependencies(tasks[..i]) + rest
    decreases |tasks|
  {
    if i == |tasks| {
      rest := [];
      assert tasks[..i] == tasks;
    } else {
      var init := tasks[..|tasks| - 1];
      rest := DependenciesSplit(init, i);
      assert init[..i] == tasks[..i];
      rest := rest + Dependencies(tasks[|tasks| - 1]);
    }
  }

  lemma DependenciesStep(before: seq<Step>, tasks: seq<TaskConfig>, i: nat)
    requires i < |tasks|
    ensures before + AllDependencies(tasks[..i + 1]) == before + AllDependencies(tasks[..i]) + Dependencies(tasks[i])
    ensures Exec(before + AllDependencies(tasks[..i + 1])).Err? ==>
              Exec(before + AllDependencies(tasks)) == Exec(before + AllDependencies(tasks[..i + 1]))
  {
    assert tasks[..i + 1][..i] == tasks[..i];
    if Exec(before + AllDependencies(tasks[..i + 1])).Err? {
      var rest := DependenciesSplit(tasks, i + 1);
      ExecStops(before + AllDependencies(tasks[..i + 1]), rest);
      assert before + AllDependencies(tasks) == before + AllDependencies(tasks[..i + 1]) + rest;
    }
  }

  method ConnectAll(g: Graph, cfg: Config, ghost before: seq<Step>) returns (err: Option<ConfigError>)
    requires Unstarted(g) && Exec(before) == Ok(g.shape)
    modifies g`edges, g`deps, g`shape
    ensures Done(g, before + AllDependencies(cfg.tasks), err)
  {
    assert before + AllDependencies(cfg.tasks[..0]) == before;
    assert cfg.tasks[..|cfg.tasks|] == cfg.tasks;
    hide Exec, AllDependencies, Unstarted;
    for i := 0 to |cfg.tasks|
      invariant Done(g, before + AllDependencies(cfg.tasks[..i]), None)
    {
      DependenciesStep(before, cfg.tasks, i);
      err := Connect(g, cfg.tasks[i], before + AllDependencies(cfg.tasks[..i]));
      if err.Some? {
        return;
      }
    }
    return None;
  }

  // ----- integrations -----

  lemma WireStep(g: Shape, after: seq<string>, id: string, i: nat)
    requires g.Valid() && id in g.edges && id !in after && i < |after|
    ensures var h := Wire(g, after[..i], id);
      && h.edges.Keys == h.deps.Keys == g.edges.Keys
      && Wire(g, after[..i + 1], id) == if after[i] in h.edges then h.WithEdge(after[i], id) else h
  {
    assert after[..i + 1][..i] == after[..i] && id !in after[..i];
    EdgesWired(g, after[..i], id);
  }

  lemma IntegrateStep(before: seq<Step>, g: Shape, id: string, need: Need, after: seq<string>)
    requires Exec(before) == Ok(g)
    ensures id in g.edges ==> Exec(before + [Integrate(id, need, after)]) == Err(DuplicateTask(id))
    ensures id !in g.edges ==>
              Exec(before + [Integrate(id, need, after)]) == Ok(Wire(g.WithTask(id, OnSuccess, need), after, id))
    ensures PolicyOf("") == OnSuccess
  {
    ExecLast(before, Integrate(id, need, after));
  }

  lemma ValidNow(g: Graph)
    requires Unstarted(g)
    ensures g.shape.Valid()
  {
  }

  /** Makes the task follow those of the named ones that exist. The errors of AddEdge are not looked
      at; there are none. */
  method WireAll(g: Graph, after: seq<string>, id: string)
    requires Unstarted(g) && id in g.shape.edges && id in g.shape.deps && id !in after
    modifies g`edges, g`deps, g`shape
    ensures Unstarted(g) && g.shape == Wire(old(g.shape), after, id)
  {
    hide Unstarted, Describes, Initial, Wire;
    ghost var base := g.shape;
    ValidNow(g);
    WireEnds(base, after, id);
    for i := 0 to |after|
      invariant Unstarted(g) && g.shape == Wire(base, after[..i], id)
    {
      SameIds(g);
      WireStep(base, after, id, i);
      if after[i] in g.tasks {
        var refused := AddEdge(g, after[i], id);
        assert refused.None?;
      }
    }
  }

  lemma WireEnds(g: Shape, after: seq<string>, id: string)
    requires id in g.deps
    ensures Wire(g, after[..0], id) == g && after[..|after|] == after
  {
  }

  /** Adds one integration task, below those of the tasks it is to follow that exist. */
  method AddIntegration(g: Graph, id: string, name: string, need: Need, after: seq<string>, ghost before: seq<Step>)
    returns (err: Option<ConfigError>)
    requires Unstarted(g) && Exec(before) == Ok(g.shape) && id != "" && id !in after
    modifies g`tasks, g`edges, g`deps, g`shape
    ensures Done(g, before + [Integrate(id, need, after)], err)
    ensures TasksKept(g) && (err.None? ==> Named(g, id, name, ""))
    ensures fresh(g.tasks.Values - old(g.tasks.Values))
  {
    hide PolicyOf, Exec, Unstarted, Describes, Initial, Apply, Wire;
    IntegrateStep(before, g.shape, id, need, after);
    var added := AddTask(g, id, name, "", need);
    if !added {
      return Some(DuplicateTask(id));
    }
    WireAll(g, after, id);
    return None;
  }

  lemma ToolStep(before: seq<Step>, steps: seq<Step>, i: nat)
    requires i < |steps| && Exec(before + steps[..i]).Ok?
    ensures before + steps[..i] + [steps[i]] == before + steps[..i + 1]
    ensures Exec(before + steps[..i + 1]).Err? ==> Exec(before + steps) == Exec(before + steps[..i + 1])
    ensures steps[i].Refuse? ==> Exec(before + steps) == Err(steps[i].error)
  {
    hide Exec;
    ExecStep(before, steps, i);
    if Exec(before + steps[..i + 1]).Err? {
      ExecFails(before, steps, i + 1);
    }
  }

  /** Every tool has a task that is named after it. */
  ghost predicate ToolsNamed(g: Graph, tools: Option<ToolSet>, prefix: string, title: string)
    reads g`tasks
  {
    tools.Some? && tools.value.enabled ==>
      forall i :: 0 <= i < |tools.value.tools| ==>
        Named(g, prefix + tools.value.tools[i].name, title + tools.value.tools[i].name, "")
  }

  method AddLinterTasks(g: Graph, cfg: Config, ghost before: seq<Step>) returns (err: Option<ConfigError>)
    requires Unstarted(g) && Exec(before) == Ok(g.shape)
    modifies g`tasks, g`edges, g`deps, g`shape
    ensures Done(g, before + LinterSteps(cfg), err) && TasksKept(g)
    ensures err.None? ==> ToolsNamed(g, cfg.linters, "lint-", "lint: ")
    ensures fresh(g.tasks.Values - old(g.tasks.Values))
  {
    hide Exec, Unstarted, HasImage;
    ghost var steps := LinterSteps(cfg);
    ExecEnds(before, steps);
    if cfg.linters.None? || !cfg.linters.value.enabled {
      return None;
    }
    var tools := cfg.linters.value.tools;
    for i := 0 to |tools|
      invariant Unstarted(g) && Exec(before + steps[..i]) == Ok(g.shape)
      invariant fresh(g.tasks.Values - old(g.tasks.Values))
      invariant TasksKept(g)
      invariant forall k :: 0 <= k < i ==> Named(g, "lint-" + tools[k].name, "lint: " + tools[k].name, "")
    {
      var tool := tools[i];
      ToolStep(before, steps, i);
      if !HasImage(tool) {
        return Some(UnknownLinter(tool.name));
      }
      LinterApart(tool.name);
      var need := cfg.defaults.(memory := AtLeast(cfg.defaults.memory, 2048));
      err := AddIntegration(g, "lint-" + tool.name, "lint: " + tool.name, need, ["clone"], before + steps[..i]);
      if err.Some? {
        return;
      }
    }
    return None;
  }

  lemma LinterApart(name: string)
    ensures "lint-" + name != "" && "lint-" + name !in ["clone"]
    ensures "security-" + name != "" && "security-" + name !in ["clone"]
  {
    assert ("lint-" + name)[0] == 'l' && ("security-" + name)[0] == 's';
  }

  method AddSonarTask(g: Graph, cfg: Config, ghost before: seq<Step>) returns (err: Option<ConfigError>)
    requires Unstarted(g) && Exec(before) == Ok(g.shape)
    modifies g`tasks, g`edges, g`deps, g`shape
    ensures Done(g, before + SonarSteps(cfg), err) && TasksKept(g)
    ensures err.None? && cfg.sonar.Some? && cfg.sonar.value.enabled ==> Named(g, "sonarqube", "sonarqube analysis", "")
    ensures fresh(g.tasks.Values - old(g.tasks.Values))
  {
    hide Exec, Unstarted;
    ExecEnds(before, []);
    if cfg.sonar.None? || !cfg.sonar.value.enabled {
      return None;
    }
    if cfg.sonar.value.serverURL == "" {
      ToolStep(before, [Refuse(NoSonarServer)], 0);
      return Some(NoSonarServer);
    }
    if cfg.sonar.value.projectKey == "" {
      ToolStep(before, [Refuse(NoSonarProject)], 0);
      return Some(NoSonarProject);
    }
    SonarApart();
    err := AddIntegration(g, "sonarqube", "sonarqube analysis", Need(2000, 2048, cfg.defaults.disk),
                          ["compile", "test", "build", "clone"], before);
  }

  lemma SonarApart()
    ensures "sonarqube" != "" && "sonarqube" !in ["compile", "test", "build", "clone"]
    ensures "review-pr" != "" && "review-pr" !in ["clone"]
  {
    assert "sonarqube"[0] == 's' && "review-pr"[0] == 'r';
    assert "compile"[0] == 'c' && "test"[0] == 't' && "build"[0] == 'b' && "clone"[0] == 'c';
  }

  method AddSecurityTasks(g: Graph, cfg: Config, ghost before: seq<Step>) returns (err: Option<ConfigError>)
    requires Unstarted(g) && Exec(before) == Ok(g.shape)
    modifies g`tasks, g`edges, g`deps, g`shape
    ensures Done(g, before + SecuritySteps(cfg), err) && TasksKept(g)
    ensures err.None? ==> ToolsNamed(g, cfg.security, "security-", "security: ")
    ensures fresh(g.tasks.Values - old(g.tasks.Values))
  {
    hide Exec, Unstarted, HasImage;
    ghost var steps := SecuritySteps(cfg);
    ExecEnds(before, steps);
    if cfg.security.None? || !cfg.security.value.enabled {
      return None;
    }
    var tools := cfg.security.value.tools;
    for i := 0 to |tools|
      invariant Unstarted(g) && Exec(before + steps[..i]) == Ok(g.shape)
      invariant fresh(g.tasks.Values - old(g.tasks.Values))
      invariant TasksKept(g)
      invariant forall k :: 0 <= k < i ==> Named(g, "security-" + tools[k].name, "security: " + tools[k].name, "")
    {
      var tool := tools[i];
      ToolStep(before, steps, i);
      if !HasImage(tool) {
        return Some(UnknownScanner(tool.name));
      }
      LinterApart(tool.name);
      err := AddIntegration(g, "security-" + tool.name, "security: " + tool.name, cfg.defaults.(memory := 1024),
                            ["clone"], before + steps[..i]);
      if err.Some? {
        return;
      }
    }
    return None;
  }

  method AddCodeReviewTask(g: Graph, cfg: Config, ghost before: seq<Step>) returns (err: Option<ConfigError>)
    requires Unstarted(g) && Exec(before) == Ok(g.shape)
    modifies g`tasks, g`edges, g`deps, g`shape
    ensures Done(g, before + ReviewSteps(cfg), err) && TasksKept(g)
    ensures err.None? && cfg.review.Some? && cfg.review.value.enabled ==> Named(g, "review-pr", "code review", "")
    ensures fresh(g.tasks.Values - old(g.tasks.Values))
  {
    hide Exec, Unstarted;
    ExecEnds(before, []);
    if cfg.review.None? || !cfg.review.value.enabled {
      return None;
    }
    var r := cfg.review.value;
    var provider := if r.provider == "" then "anthropic" else r.provider;
    if r.serverURL == "" && provider != "ollama" && r.apiKeySecret == "" {
      ToolStep(before, [Refuse(NoReviewKey(provider))], 0);
      return Some(NoReviewKey(provider));
    }
    SonarApart();
    err := AddIntegration(g, "review-pr", "code review", cfg.defaults.(memory := 512), ["clone"], before);
  }

  // ----- the whole pipeline -----

  ghost predicate AutoNamed(g: Graph, cfg: Config)
    reads g`tasks
  {
    && ToolsNamed(g, cfg.linters, "lint-", "lint: ") && ToolsNamed(g, cfg.security, "security-", "security: ")
    && (cfg.sonar.Some? && cfg.sonar.value.enabled ==> Named(g, "sonarqube", "sonarqube analysis", ""))
    && (cfg.review.Some? && cfg.review.value.enabled ==> Named(g, "review-pr", "code review", ""))
  }

  /** Adds the tasks of all integrations. */
  method AddIntegrations(g: Graph, cfg: Config, ghost before: seq<Step>) returns (err: Option<ConfigError>)
    requires Unstarted(g) && Exec(before) == Ok(g.shape)
    modifies g`tasks, g`edges, g`deps, g`shape
    ensures Done(g, before + AutoSteps(cfg), err) && TasksKept(g)
    ensures err.None? ==> AutoNamed(g, cfg)
    ensures fresh(g.tasks.Values - old(g.tasks.Values))
  {
    hide Exec, Unstarted, LinterSteps, SonarSteps, SecuritySteps, ReviewSteps;
    ghost var linted := before + LinterSteps(cfg);
    ghost var analysed := linted + SonarSteps(cfg);
    ghost var scanned := analysed + SecuritySteps(cfg);
    assert before + AutoSteps(cfg) == scanned + ReviewSteps(cfg);
    err := AddLinterTasks(g, cfg, before);
    if err.Some? {
      StopsEarly(linted, SonarSteps(cfg), SecuritySteps(cfg), ReviewSteps(cfg));
      return;
    }
    err := AddSonarTask(g, cfg, linted);
    if err.Some? {
      StopsEarly(analysed, SecuritySteps(cfg), ReviewSteps(cfg), []);
      return;
    }
    err := AddSecurityTasks(g, cfg, analysed);
    if err.Some? {
      StopsEarly(scanned, ReviewSteps(cfg), [], []);
      return;
    }
    err := AddCodeReviewTask(g, cfg, scanned);
  }

  lemma StopsEarly(before: seq<Step>, a: seq<Step>, b: seq<Step>, c: seq<Step>)
    requires Exec(before).Err?
    ensures Exec(before + a + b + c) == Exec(before + a + b) == Exec(before + a) == Exec(before)
  {
    ExecStops(before, a);
    ExecStops(before + a, b);
    ExecStops(before + a + b, c);
  }

  /** The graph of the user's tasks. */
  method DeclareAll(g: Graph, cfg: Config) returns (err: Option<ConfigError>)
    requires Unstarted(g) && g.shape == EMPTY
    modifies g`tasks, g`edges, g`deps, g`shape
    ensures Done(g, UserSteps(cfg), err)
    ensures err.None? ==> AllNamed(g, cfg.tasks)
    ensures fresh(g.tasks.Values - old(g.tasks.Values))
  {
    hide Exec, Unstarted, Declarations, AllDependencies;
    err := DeclareTasks(g, cfg);
    if err.Some? {
      ExecStops(Declarations(cfg.tasks, cfg.defaults), AllDependencies(cfg.tasks));
      return;
    }
    err := ConnectAll(g, cfg, Declarations(cfg.tasks, cfg.defaults));
  }

  /** The last step: a topological order, or an error. */
  method Check(g: Graph) returns (err: Option<ConfigError>)
    requires Unstarted(g)
    modifies g`order
    ensures Unstarted(g)
    ensures err == if Cyclic(g.shape) then Some(CyclicPipeline) else None
    ensures err.None? ==> Topological(g.shape, g.order)
  {
    hide Describes, Cyclic, Topological;
    var cycle;
    ghost var stuck;
    cycle, stuck := g.Validate();
    err := if cycle.Some? then Some(CyclicPipeline) else None;
  }

  method NewGraph() returns (g: Graph)
    ensures fresh(g) && fresh(g.tasks.Values) && Unstarted(g) && g.shape == EMPTY && Exec([]) == Ok(g.shape)
  {
    g := new Graph();
  }

  // ----- the graph, in terms of the configuration -----

  /** The task needs this much, and waits for exactly these. */
  ghost predicate Placed(g: Graph, id: string, need: Need, parents: set<string>)
    reads g`tasks, g`deps
  {
    id in g.tasks && id in g.deps && g.tasks[id].need == need && g.deps[id] == parents
  }

  lemma ShapeSeen(g: Graph, id: string)
    requires g.Valid() && id in g.tasks
    ensures id in g.shape.need && id in g.shape.deps && id in g.deps && g.tasks.Keys == g.shape.Ids()
    ensures g.tasks[id].need == g.shape.need[id] && g.deps[id] == g.shape.deps[id]
  {
  }

  lemma UserTaskSeen(g: Graph, cfg: Config, t: TaskConfig)
    requires g.Valid() && Exec(Program(cfg)) == Ok(g.shape) && t in cfg.tasks
    ensures Placed(g, t.id, Need(if t.need.cpu == 0 then cfg.defaults.cpu else t.need.cpu,
                                 if t.need.memory == 0 then cfg.defaults.memory else t.need.memory,
                                 if t.need.disk == 0 then cfg.defaults.disk else t.need.disk),
                   set p | p in t.dependsOn)
  {
    hide Exec, Program, PolicyOf;
    UserTask(cfg, t);
    AboutIds(g);
    ShapeSeen(g, t.id);
    hide Describes;
  }

  lemma FollowsSeen(g: Graph, id: string, need: Need, after: set<string>)
    requires g.Valid() && Follows(g.shape, id, need, after)
    ensures Placed(g, id, need, after * g.tasks.Keys)
  {
    AboutIds(g);
    ShapeSeen(g, id);
    hide Describes;
  }

  lemma UserTasksSeen(g: Graph, cfg: Config)
    requires g.Valid() && Exec(Program(cfg)) == Ok(g.shape)
    ensures forall t :: t in cfg.tasks ==>
              Placed(g, t.id, Need(if t.need.cpu == 0 then cfg.defaults.cpu else t.need.cpu,
                                   if t.need.memory == 0 then cfg.defaults.memory else t.need.memory,
                                   if t.need.disk == 0 then cfg.defaults.disk else t.need.disk),
                     set p | p in t.dependsOn)
  {
    hide Exec, Program, Describes, Placed;
    forall t | t in cfg.tasks
      ensures Placed(g, t.id, Need(if t.need.cpu == 0 then cfg.defaults.cpu else t.need.cpu,
                                   if t.need.memory == 0 then cfg.defaults.memory else t.need.memory,
                                   if t.need.disk == 0 then cfg.defaults.disk else t.need.disk),
                     set p | p in t.dependsOn)
    {
      UserTaskSeen(g, cfg, t);
    }
  }

  lemma LintersSeen(g: Graph, cfg: Config)
    requires g.Valid() && Exec(Program(cfg)) == Ok(g.shape) && cfg.linters.Some? && cfg.linters.value.enabled
    ensures forall i :: 0 <= i < |cfg.linters.value.tools| ==>
              Placed(g, "lint-" + cfg.linters.value.tools[i].name,
                     Need(cfg.defaults.cpu, if cfg.defaults.memory < 2048 then 2048 else cfg.defaults.memory,
                          cfg.defaults.disk),
                     {"clone"} * g.tasks.Keys)
  {
    hide Exec, Program, Describes, Placed, Follows;
    var d := cfg.defaults;
    forall i | 0 <= i < |cfg.linters.value.tools|
      ensures Placed(g, "lint-" + cfg.linters.value.tools[i].name,
                     Need(d.cpu, if d.memory < 2048 then 2048 else d.memory, d.disk), {"clone"} * g.tasks.Keys)
    {
      LinterTask(cfg, i);
      FollowsSeen(g, "lint-" + cfg.linters.value.tools[i].name,
                  Need(d.cpu, if d.memory < 2048 then 2048 else d.memory, d.disk), {"clone"});
    }
  }

  lemma ScannersSeen(g: Graph, cfg: Config)
    requires g.Valid() && Exec(Program(cfg)) == Ok(g.shape) && cfg.security.Some? && cfg.security.value.enabled
    ensures forall i :: 0 <= i < |cfg.security.value.tools| ==>
              Placed(g, "security-" + cfg.security.value.tools[i].name,
                     Need(cfg.defaults.cpu, 1024, cfg.defaults.disk), {"clone"} * g.tasks.Keys)
  {
    hide Exec, Program, Describes, Placed, Follows;
    forall i | 0 <= i < |cfg.security.value.tools|
      ensures Placed(g, "security-" + cfg.security.value.tools[i].name,
                     Need(cfg.defaults.cpu, 1024, cfg.defaults.disk), {"clone"} * g.tasks.Keys)
    {
      ScannerTask(cfg, i);
      FollowsSeen(g, "security-" + cfg.security.value.tools[i].name,
                  Need(cfg.defaults.cpu, 1024, cfg.defaults.disk), {"clone"});
    }
  }

  lemma OthersSeen(g: Graph, cfg: Config)
    requires g.Valid() && Exec(Program(cfg)) == Ok(g.shape)
    ensures cfg.sonar.Some? && cfg.sonar.value.enabled ==>
              Placed(g, "sonarqube", Need(2000, 2048, cfg.defaults.disk),
                     {"compile", "test", "build", "clone"} * g.tasks.Keys)
    ensures cfg.review.Some? && cfg.review.value.enabled ==>
              Placed(g, "review-pr", Need(cfg.defaults.cpu, 512, cfg.defaults.disk),
                     {"clone"} * g.tasks.Keys)
    ensures forall x :: x in g.tasks ==> IsDeclared(cfg.tasks, x) || IsIntegration(cfg, x)
  {
    hide Exec, Program, Describes, Placed, Follows, IsDeclared, IsIntegration;
    AboutIds(g);
    if cfg.sonar.Some? && cfg.sonar.value.enabled {
      SonarTask(cfg);
      FollowsSeen(g, "sonarqube", Need(2000, 2048, cfg.defaults.disk), {"compile", "test", "build", "clone"});
    }
    if cfg.review.Some? && cfg.review.value.enabled {
      ReviewTask(cfg);
      FollowsSeen(g, "review-pr", Need(cfg.defaults.cpu, 512, cfg.defaults.disk), {"clone"});
    }
    forall x | x in g.tasks
      ensures IsDeclared(cfg.tasks, x) || IsIntegration(cfg, x)
    {
      OnlyThese(cfg, x);
    }
  }

  /** Builds and validates the graph of a pipeline. */
  method BuildGraph(cfg: Config) returns (g: Graph, err: Option<ConfigError>)
    ensures fresh(g) && fresh(g.tasks.Values)
    ensures err == match Exec(Program(cfg))
                   case Err(e) => Some(e)
                   case Ok(h) => if Cyclic(h) then Some(CyclicPipeline) else None
    ensures err.None? ==>
      Unstarted(g) && Ok(g.shape) == Exec(Program(cfg)) && Topological(g.shape, g.order)
    ensures err.None? <==> WellFormed(cfg) && !Circular(cfg.tasks)
    ensures WellFormed(cfg) && Circular(cfg.tasks) ==> err == Some(CyclicPipeline)
    ensures err.Some? ==> Justified(cfg, err.value)
    ensures err.None? ==> forall t :: t in cfg.tasks ==>
      && Named(g, t.id, if t.name == "" then t.id else t.name, t.condition)
      && Placed(g, t.id, Need(if t.need.cpu == 0 then cfg.defaults.cpu else t.need.cpu,
                              if t.need.memory == 0 then cfg.defaults.memory else t.need.memory,
                              if t.need.disk == 0 then cfg.defaults.disk else t.need.disk),
                set p | p in t.dependsOn)
    ensures err.None? && cfg.linters.Some? && cfg.linters.value.enabled ==>
      forall i :: 0 <= i < |cfg.linters.value.tools| ==> var name := cfg.linters.value.tools[i].name;
        && Named(g, "lint-" + name, "lint: " + name, "")
        && Placed(g, "lint-" + name,
                  Need(cfg.defaults.cpu, if cfg.defaults.memory < 2048 then 2048 else cfg.defaults.memory,
                       cfg.defaults.disk),
                  {"clone"} * g.tasks.Keys)
    ensures err.None? && cfg.sonar.Some? && cfg.sonar.value.enabled ==>
      && Named(g, "sonarqube", "sonarqube analysis", "")
      && Placed(g, "sonarqube", Need(2000, 2048, cfg.defaults.disk),
                {"compile", "test", "build", "clone"} * g.tasks.Keys)
    ensures err.None? && cfg.security.Some? && cfg.security.value.enabled ==>
      forall i :: 0 <= i < |cfg.security.value.tools| ==> var name := cfg.security.value.tools[i].name;
        && Named(g, "security-" + name, "security: " + name, "")
        && Placed(g, "security-" + name, Need(cfg.defaults.cpu, 1024, cfg.defaults.disk),
                  {"clone"} * g.tasks.Keys)
    ensures err.None? && cfg.review.Some? && cfg.review.value.enabled ==>
      && Named(g, "review-pr", "code review", "")
      && Placed(g, "review-pr", Need(cfg.defaults.cpu, 512, cfg.defaults.disk), {"clone"} * g.tasks.Keys)
    ensures err.None? ==> forall x :: x in g.tasks ==>
      g.tasks[x].state == Pending && (IsDeclared(cfg.tasks, x) || IsIntegration(cfg, x))
  {
    hide Exec, Program, Unstarted, Cyclic, Topological, WellFormed, Circular, Placed, IsDeclared, IsIntegration,
         Unrepeated, DependsOn, Unknown;
    g, err := Compile(cfg);
    ProgramIff(cfg);
    if Exec(Program(cfg)).Ok? {
      CircularIff(cfg);
    } else {
      ErrorJustified(cfg);
    }
    if err.None? {
      AllPending(g);
      UserTasksSeen(g, cfg);
      if cfg.linters.Some? && cfg.linters.value.enabled {
        LintersSeen(g, cfg);
      }
      if cfg.security.Some? && cfg.security.value.enabled {
        ScannersSeen(g, cfg);
      }
      OthersSeen(g, cfg);
    }
  }

  lemma AllPending(g: Graph)
    requires Unstarted(g)
    ensures g.Valid() && forall x :: x in g.tasks ==> g.tasks[x].state == Pending
  {
    assert forall x :: x in g.tasks ==> g.States()[x] == g.tasks[x].state;
  }

  /** The steps of the configuration, and then the check. */
  method Compile(cfg: Config) returns (g: Graph, err: Option<ConfigError>)
    ensures fresh(g) && fresh(g.tasks.Values)
    ensures err == match Exec(Program(cfg))
                   case Err(e) => Some(e)
                   case Ok(h) => if Cyclic(h) then Some(CyclicPipeline) else None
    ensures err.None? ==>
      Unstarted(g) && Ok(g.shape) == Exec(Program(cfg)) && Topological(g.shape, g.order)
    ensures err.None? ==> AllNamed(g, cfg.tasks) && AutoNamed(g, cfg)
  {
    hide Exec, Unstarted, Cyclic, Topological, UserSteps, AutoSteps, AutoNamed;
    g := NewGraph();
    err := DeclareAll(g, cfg);
    if err.Some? {
      ExecStops(UserSteps(cfg), AutoSteps(cfg));
      return;
    }
    err := AddIntegrations(g, cfg, UserSteps(cfg));
    if err.Some? {
      return;
    }
    err := Check(g);
  }
}
