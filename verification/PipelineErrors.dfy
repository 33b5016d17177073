/** What each error of a pipeline says about its configuration. */
module PipelineErrors {
  import opened Collections
  import opened Tasks
  import opened GraphSpec
  import opened PipelineSpec
  import opened PipelineSinks
  import opened PipelineMeaning

  ghost predicate Unknown(tools: Option<ToolSet>, name: string) {
    tools.Some? && tools.value.enabled && exists t :: t in tools.value.tools && t.name == name && !KnownTool(t)
  }

  /** The error is true of the configuration. */
  ghost predicate Justified(cfg: Config, e: ConfigError) {
    match e
    case EmptyTask => IsDeclared(cfg.tasks, "")
    case DuplicateTask(x) => (IsDeclared(cfg.tasks, x) && !Unrepeated(cfg.tasks)) || IsIntegration(cfg, x)
    case MissingTask(p, c) => DependsOn(cfg.tasks, c, p) && !IsDeclared(cfg.tasks, p)
    case DependsOnItself(x) => DependsOn(cfg.tasks, x, x)
    case UnknownLinter(name) => Unknown(cfg.linters, name)
    case UnknownScanner(name) => Unknown(cfg.security, name)
    case NoSonarServer => cfg.sonar.Some? && cfg.sonar.value.enabled && cfg.sonar.value.serverURL == ""
    case NoSonarProject =>
      cfg.sonar.Some? && cfg.sonar.value.enabled && cfg.sonar.value.serverURL != "" && cfg.sonar.value.projectKey == ""
    case NoReviewKey(provider) =>
      && cfg.review.Some? && cfg.review.value.enabled
      && cfg.review.value.serverURL == "" && cfg.review.value.apiKeySecret == "" && provider != "ollama"
      && provider == if cfg.review.value.provider == "" then "anthropic" else cfg.review.value.provider
    case CyclicPipeline => Circular(cfg.tasks)
  }

  // ----- the user's part -----

  lemma {:induction false} DeclarationError(tasks: seq<TaskConfig>, d: Need)
    requires Exec(Declarations(tasks, d)).Err?
    ensures match Exec(Declarations(tasks, d)).error
            case EmptyTask => IsDeclared(tasks, "")
            case DuplicateTask(x) => IsDeclared(tasks, x) && !Unrepeated(tasks)
            case _ => false
    decreases |tasks|
  {
    hide Exec, Declarations, PolicyOf, OrDefault, Unrepeated, IsDeclared, Declares;
    if tasks == [] {
      NothingDeclared(d);
    } else {
      var init, t := tasks[..|tasks| - 1], tasks[|tasks| - 1];
      DeclarationsLast(tasks, d);
      ExecLast(Declarations(init, d), Declare(t.id, PolicyOf(t.condition), OrDefault(t.need, d)));
      UnrepeatedLast(tasks);
      DeclaredLast(tasks, t.id);
      DeclaredLast(tasks, "");
      DeclarationsIff(init, d);
      if Exec(Declarations(init, d)).Err? {
        DeclarationError(init, d);
        if Exec(Declarations(init, d)).error.DuplicateTask? {
          DeclaredLast(tasks, Exec(Declarations(init, d)).error.id);
        }
      } else {
        DeclaredIn(Exec(Declarations(init, d)).value, init, d, t.id);
      }
    }
  }

  /** The step that failed. */
  lemma {:induction false} DependencyError(before: seq<Step>, deps: seq<Step>) returns (s: Step)
    requires Exec(before).Ok? && Exec(before).value.Valid() && OnlyDepends(deps) && Exec(before + deps).Err?
    ensures s in deps && s.Depend?
    ensures var g, e := Exec(before).value, Exec(before + deps).error;
      || (e == MissingTask(s.parent, s.child) && (s.parent !in g.Ids() || s.child !in g.Ids()))
      || (e == DependsOnItself(s.child) && s.parent == s.child)
    decreases |deps|
  {
    hide Exec, Shape.Valid;
    assert before + [] == before;
    if deps == [] {
      assert false;
    } else {
      var init, last := deps[..|deps| - 1], deps[|deps| - 1];
      assert deps == init + [last] && last in deps && before + deps == before + init + [last];
      ExecLast(before + init, last);
      if Exec(before + init).Err? {
        s := DependencyError(before, init);
      } else {
        s := last;
        DependsIff(before, init);
        SameTasks(Exec(before).value, Exec(before + init).value, init);
      }
    }
  }

  lemma SameTasks(g: Shape, h: Shape, deps: seq<Step>)
    requires Connects(g, h, deps)
    ensures h.Ids() == g.Ids() && h.edges.Keys == h.deps.Keys
  {
  }

  lemma DependencyJustified(cfg: Config, g: Shape, s: Step, e: ConfigError)
    requires Declares(g, cfg.tasks, cfg.defaults) && s in AllDependencies(cfg.tasks) && s.Depend?
    requires || (e == MissingTask(s.parent, s.child) && (s.parent !in g.Ids() || s.child !in g.Ids()))
             || (e == DependsOnItself(s.child) && s.parent == s.child)
    ensures Justified(cfg, e)
  {
    InAllDependencies(cfg.tasks, s);
    var t :| t in cfg.tasks && t.id == s.child && s.parent in t.dependsOn;
    TaskIsDeclared(cfg.tasks, t);
    hide AllDependencies, IsIntegration, Circular, Unknown, HasOwn;
  }

  // ----- the integrations -----

  lemma {:induction false} AutoError(user: seq<Step>, auto: seq<Step>) returns (s: Step)
    requires Exec(user).Ok? && AllAuto(auto) && Exec(user + auto).Err?
    ensures s in auto
    ensures s.Refuse? || s.Integrate?
    ensures Exec(user + auto).error == if s.Refuse? then s.error else DuplicateTask(s.id)
    decreases |auto|
  {
    hide Exec;
    assert user + [] == user;
    if auto == [] {
      assert false;
    } else {
      var init, last := auto[..|auto| - 1], auto[|auto| - 1];
      assert auto == init + [last] && last in auto && user + auto == user + init + [last];
      ExecLast(user + init, last);
      assert IsAuto(last);
      if Exec(user + init).Err? {
        s := AutoError(user, init);
      } else {
        s := last;
      }
    }
  }

  lemma LinterRefused(cfg: Config, s: Step)
    requires s in LinterSteps(cfg) && s.Refuse?
    ensures Justified(cfg, s.error)
  {
    var i :| 0 <= i < |LinterSteps(cfg)| && LinterSteps(cfg)[i] == s;
    var t := cfg.linters.value.tools[i];
    HasImageIff(t);
    assert t in cfg.linters.value.tools && !KnownTool(t);
    hide HasImage, KnownTool, IsIntegration, Circular;
  }

  lemma ScannerRefused(cfg: Config, s: Step)
    requires s in SecuritySteps(cfg) && s.Refuse?
    ensures Justified(cfg, s.error)
  {
    var i :| 0 <= i < |SecuritySteps(cfg)| && SecuritySteps(cfg)[i] == s;
    var t := cfg.security.value.tools[i];
    HasImageIff(t);
    assert t in cfg.security.value.tools && !KnownTool(t);
    hide HasImage, KnownTool, IsIntegration, Circular;
  }

  lemma OtherRefused(cfg: Config, s: Step)
    requires (s in SonarSteps(cfg) || s in ReviewSteps(cfg)) && s.Refuse?
    ensures Justified(cfg, s.error)
  {
    hide Circular, IsIntegration, Unknown;
  }

  lemma AutoJustified(cfg: Config, s: Step)
    requires s in AutoSteps(cfg) && (s.Refuse? || s.Integrate?)
    ensures Justified(cfg, if s.Refuse? then s.error else DuplicateTask(s.id))
  {
    hide AutoSteps, LinterSteps, SonarSteps, SecuritySteps, ReviewSteps, IsIntegration, Unknown, Circular;
    InAutoSteps(cfg, s);
    if s.Integrate? {
      AutoIsIntegration(cfg, s);
    } else if s in LinterSteps(cfg) {
      LinterRefused(cfg, s);
    } else if s in SecuritySteps(cfg) {
      ScannerRefused(cfg, s);
    } else {
      OtherRefused(cfg, s);
    }
  }

  lemma UserJustified(cfg: Config)
    requires Exec(UserSteps(cfg)).Err?
    ensures Justified(cfg, Exec(UserSteps(cfg)).error)
  {
    hide Exec, Declarations, AllDependencies, Declares, IsDeclared, Unrepeated, DependsOn, IsIntegration, Circular,
         Unknown;
    var declared, deps := Declarations(cfg.tasks, cfg.defaults), AllDependencies(cfg.tasks);
    DeclarationsIff(cfg.tasks, cfg.defaults);
    if Exec(declared).Err? {
      ExecStops(declared, deps);
      DeclarationError(cfg.tasks, cfg.defaults);
    } else {
      DependenciesPlain(cfg.tasks);
      DeclaredIn(Exec(declared).value, cfg.tasks, cfg.defaults, "");
      var s := DependencyError(declared, deps);
      DependencyJustified(cfg, Exec(declared).value, s, Exec(declared + deps).error);
    }
  }

  /** Every error is true of the configuration. */
  lemma ErrorJustified(cfg: Config)
    requires Exec(Program(cfg)).Err?
    ensures Justified(cfg, Exec(Program(cfg)).error)
  {
    hide Exec, UserSteps, AutoSteps, Justified, AllAuto;
    if Exec(UserSteps(cfg)).Err? {
      ExecStops(UserSteps(cfg), AutoSteps(cfg));
      UserJustified(cfg);
    } else {
      AutoIsAuto(cfg);
      var s := AutoError(UserSteps(cfg), AutoSteps(cfg));
      AutoJustified(cfg, s);
    }
  }
}
