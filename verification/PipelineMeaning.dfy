/** The graph of a pipeline, told from its configuration alone: which tasks it has, what each needs,
    what each waits for, and which configurations are refused. */
module PipelineMeaning {
  import opened Collections
  import opened Tasks
  import opened GraphSpec
  import opened Cycles
  import opened PipelineSpec
  import opened PipelineSinks

  // ----- the user's tasks -----

  ghost predicate Unrepeated(tasks: seq<TaskConfig>) {
    forall i, j :: 0 <= i < j < |tasks| ==> tasks[i].id != tasks[j].id
  }

  ghost predicate IsDeclared(tasks: seq<TaskConfig>, x: string) {
    exists t :: t in tasks && t.id == x
  }

  /** The task has the condition and the needs that it was given, and the default for each need
      that it was not. */
  ghost predicate HasOwn(g: Shape, t: TaskConfig, d: Need) {
    && t.id in g.policy && t.id in g.need && g.policy[t.id] == PolicyOf(t.condition)
    && g.need[t.id].cpu == (if t.need.cpu == 0 then d.cpu else t.need.cpu)
    && g.need[t.id].memory == (if t.need.memory == 0 then d.memory else t.need.memory)
    && g.need[t.id].disk == (if t.need.disk == 0 then d.disk else t.need.disk)
  }

  ghost predicate Declares(g: Shape, tasks: seq<TaskConfig>, d: Need) {
    && g.Valid() && (forall x :: x in g.Ids() <==> IsDeclared(tasks, x))
    && forall t :: t in tasks ==> HasOwn(g, t, d)
  }

  lemma DeclarationsLast(tasks: seq<TaskConfig>, d: Need)
    requires tasks != []
    ensures var init, t := tasks[..|tasks| - 1], tasks[|tasks| - 1];
      Declarations(tasks, d) == Declarations(init, d) + [Declare(t.id, PolicyOf(t.condition), OrDefault(t.need, d))]
  {
  }

  lemma DeclaredLast(tasks: seq<TaskConfig>, x: string)
    requires tasks != []
    ensures IsDeclared(tasks, x) <==> IsDeclared(tasks[..|tasks| - 1], x) || tasks[|tasks| - 1].id == x
  {
    var init, t := tasks[..|tasks| - 1], tasks[|tasks| - 1];
    assert tasks == init + [t];
    assert t in tasks;
    if IsDeclared(init, x) {
      var u :| u in init && u.id == x;
      assert u in tasks;
    }
  }

  lemma UnrepeatedLast(tasks: seq<TaskConfig>)
    requires tasks != []
    ensures Unrepeated(tasks) <==>
            Unrepeated(tasks[..|tasks| - 1]) && !IsDeclared(tasks[..|tasks| - 1], tasks[|tasks| - 1].id)
  {
    var init, t := tasks[..|tasks| - 1], tasks[|tasks| - 1];
    if Unrepeated(tasks) {
      forall u | u in init
        ensures u.id != t.id
      {
        var i :| 0 <= i < |init| && init[i] == u;
        assert tasks[i] == u && tasks[|tasks| - 1] == t;
      }
    }
    if Unrepeated(init) && !IsDeclared(init, t.id) {
      forall i, j | 0 <= i < j < |tasks|
        ensures tasks[i].id != tasks[j].id
      {
        if j < |init| {
          assert init[i].id != init[j].id;
        } else {
          assert init[i] in init;
        }
      }
    }
  }

  lemma DeclaresOneMore(g: Shape, tasks: seq<TaskConfig>, d: Need)
    requires tasks != [] && Declares(g, tasks[..|tasks| - 1], d)
    requires !IsDeclared(tasks[..|tasks| - 1], tasks[|tasks| - 1].id)
    ensures var t := tasks[|tasks| - 1];
      Declares(g.WithTask(t.id, PolicyOf(t.condition), OrDefault(t.need, d)), tasks, d)
  {
    hide Shape.Valid, PolicyOf, OrDefault, IsDeclared, HasOwn, Shape.WithTask;
    var init, t := tasks[..|tasks| - 1], tasks[|tasks| - 1];
    assert tasks == init + [t];
    DeclaredIn(g, init, d, t.id);
    WithTaskValid(g, t.id, PolicyOf(t.condition), OrDefault(t.need, d));
    var h := g.WithTask(t.id, PolicyOf(t.condition), OrDefault(t.need, d));
    forall x
      ensures x in h.Ids() <==> IsDeclared(tasks, x)
    {
      DeclaredLast(tasks, x);
      OneMoreId(g, t.id, PolicyOf(t.condition), OrDefault(t.need, d));
    }
    forall u | u in tasks
      ensures HasOwn(h, u, d)
    {
      if u in init {
        NotTheLast(init, u, t.id);
        OthersHaveOwn(g, u, t, d);
      } else {
        NewHasOwn(g, t, d);
      }
    }
  }

  lemma OneMoreId(g: Shape, x: string, p: Policy, n: Need)
    ensures g.WithTask(x, p, n).Ids() == g.Ids() + {x}
  {
  }

  lemma NotTheLast(tasks: seq<TaskConfig>, u: TaskConfig, x: string)
    requires u in tasks && !IsDeclared(tasks, x)
    ensures u.id != x
  {
  }

  lemma NewHasOwn(g: Shape, t: TaskConfig, d: Need)
    ensures HasOwn(g.WithTask(t.id, PolicyOf(t.condition), OrDefault(t.need, d)), t, d)
  {
    hide PolicyOf;
  }

  lemma OthersHaveOwn(g: Shape, u: TaskConfig, t: TaskConfig, d: Need)
    requires HasOwn(g, u, d) && u.id != t.id
    ensures HasOwn(g.WithTask(t.id, PolicyOf(t.condition), OrDefault(t.need, d)), u, d)
  {
    hide PolicyOf, OrDefault;
  }

  /** Exactly tasks with different ids, none of them empty, can be declared. */
  lemma {:induction false} DeclarationsIff(tasks: seq<TaskConfig>, d: Need)
    ensures Exec(Declarations(tasks, d)).Ok? <==> Unrepeated(tasks) && forall t :: t in tasks ==> t.id != ""
    ensures Exec(Declarations(tasks, d)).Ok? ==>
              var g := Exec(Declarations(tasks, d)).value;
              Declares(g, tasks, d) && forall p, c :: !g.Edge(p, c)
    decreases |tasks|
  {
    hide Exec, Declarations, Declares, PolicyOf, OrDefault, Unrepeated, IsDeclared;
    if tasks == [] {
      NothingDeclared(d);
    } else {
      var init, t := tasks[..|tasks| - 1], tasks[|tasks| - 1];
      assert tasks == init + [t];
      DeclarationsIff(init, d);
      DeclarationsLast(tasks, d);
      ExecLast(Declarations(init, d), Declare(t.id, PolicyOf(t.condition), OrDefault(t.need, d)));
      UnrepeatedLast(tasks);
      if Exec(Declarations(init, d)).Ok? {
        var g := Exec(Declarations(init, d)).value;
        DeclaredIn(g, init, d, t.id);
        if t.id != "" && t.id !in g.edges {
          DeclaresOneMore(g, tasks, d);
          WithTaskValid(g, t.id, PolicyOf(t.condition), OrDefault(t.need, d));
        }
      }
    }
  }

  lemma DeclaredIn(g: Shape, tasks: seq<TaskConfig>, d: Need, x: string)
    requires Declares(g, tasks, d)
    ensures g.Valid() && (x in g.edges <==> IsDeclared(tasks, x))
  {
    assert x in g.Ids() <==> IsDeclared(tasks, x);
  }

  lemma NothingDeclared(d: Need)
    ensures Unrepeated([]) && Exec(Declarations([], d)) == Ok(EMPTY) && Declares(EMPTY, [], d)
    ensures forall p, c :: !EMPTY.Edge(p, c)
  {
  }

  // ----- the user's dependencies -----

  /** The same tasks, and these dependencies more. */
  ghost predicate Connects(g: Shape, h: Shape, deps: seq<Step>) {
    && g.Valid() && h.Valid() && h.Ids() == g.Ids() && h.policy == g.policy && h.need == g.need
    && forall p, c :: h.Edge(p, c) <==> g.Edge(p, c) || Depend(p, c) in deps
  }

  predicate OnlyDepends(deps: seq<Step>) {
    forall s :: s in deps ==> s.Depend?
  }

  /** Both tasks exist, and they are two. */
  ghost predicate Joinable(g: Shape, s: Step) {
    s.Depend? && s.parent in g.Ids() && s.child in g.Ids() && s.parent != s.child
  }

  lemma ConnectsOneMore(g: Shape, h: Shape, deps: seq<Step>, s: Step)
    requires Connects(g, h, deps) && Joinable(g, s)
    ensures Apply(h, s).Ok? && Connects(g, Apply(h, s).value, deps + [s])
  {
    WithEdgeValid(h, s.parent, s.child);
    var r := h.WithEdge(s.parent, s.child);
    assert Apply(h, s) == Ok(r);
    forall p, c
      ensures r.Edge(p, c) <==> g.Edge(p, c) || Depend(p, c) in deps + [s]
    {
      assert Depend(p, c) in deps + [s] <==> Depend(p, c) in deps || (p == s.parent && c == s.child);
    }
    hide Shape.Edge;
  }

  lemma NotJoinable(g: Shape, h: Shape, deps: seq<Step>, s: Step)
    requires Connects(g, h, deps) && s.Depend? && !Joinable(g, s)
    ensures Apply(h, s).Err?
  {
  }

  lemma {:induction false} DependsIff(before: seq<Step>, deps: seq<Step>)
    requires Exec(before).Ok? && Exec(before).value.Valid() && OnlyDepends(deps)
    ensures Exec(before + deps).Ok? <==> forall s :: s in deps ==> Joinable(Exec(before).value, s)
    ensures Exec(before + deps).Ok? ==> Connects(Exec(before).value, Exec(before + deps).value, deps)
    decreases |deps|
  {
    hide Exec, Apply, Connects, Joinable, Shape.Valid;
    if deps == [] {
      assert before + deps == before;
      NothingConnected(Exec(before).value);
    } else {
      var init, s := deps[..|deps| - 1], deps[|deps| - 1];
      assert deps == init + [s] && s in deps && before + deps == before + init + [s];
      DependsIff(before, init);
      ExecLast(before + init, s);
      if Exec(before + init).Ok? {
        if Joinable(Exec(before).value, s) {
          ConnectsOneMore(Exec(before).value, Exec(before + init).value, init, s);
        } else {
          NotJoinable(Exec(before).value, Exec(before + init).value, init, s);
        }
      }
    }
  }

  lemma NothingConnected(g: Shape)
    requires g.Valid()
    ensures Connects(g, g, [])
  {
  }

  ghost predicate DependsOn(tasks: seq<TaskConfig>, c: string, p: string) {
    exists t :: t in tasks && t.id == c && p in t.dependsOn
  }

  lemma InDependencies(t: TaskConfig, s: Step)
    ensures s in Dependencies(t) <==> s.Depend? && s.child == t.id && s.parent in t.dependsOn
  {
    var steps := Dependencies(t);
    if s.Depend? && s.child == t.id && s.parent in t.dependsOn {
      var i :| 0 <= i < |t.dependsOn| && t.dependsOn[i] == s.parent;
      assert steps[i] == s;
    }
  }

  lemma {:induction false} InAllDependencies(tasks: seq<TaskConfig>, s: Step)
    ensures s in AllDependencies(tasks) <==> s.Depend? && DependsOn(tasks, s.child, s.parent)
    decreases |tasks|
  {
    if tasks != [] {
      var init, t := tasks[..|tasks| - 1], tasks[|tasks| - 1];
      assert tasks == init + [t];
      InAllDependencies(init, s);
      InDependencies(t, s);
      hide Dependencies;
      if s.Depend? {
        DependsLast(init, t, s.child, s.parent);
      }
    }
  }

  lemma DependsLast(init: seq<TaskConfig>, t: TaskConfig, c: string, p: string)
    ensures DependsOn(init + [t], c, p) <==> DependsOn(init, c, p) || (t.id == c && p in t.dependsOn)
  {
    assert forall u :: u in init + [t] <==> u in init || u == t;
    if DependsOn(init, c, p) {
      var u :| u in init && u.id == c && p in u.dependsOn;
      assert u in init + [t];
    }
    assert t in init + [t];
  }

  // ----- both -----

  /** Every dependency is on another task that exists. */
  ghost predicate DependsOnOthers(tasks: seq<TaskConfig>, t: TaskConfig) {
    forall p :: p in t.dependsOn ==> p != t.id && IsDeclared(tasks, p)
  }

  /** Nothing is wrong with the tasks: ids that are there and differ, dependencies on other tasks
      that exist. */
  ghost predicate TasksFine(tasks: seq<TaskConfig>) {
    && Unrepeated(tasks)
    && forall t :: t in tasks ==> t.id != "" && DependsOnOthers(tasks, t)
  }

  /** The graph of the user's tasks: below each of them exactly what it depends on. */
  ghost predicate UsersGraph(g: Shape, cfg: Config) {
    && Declares(g, cfg.tasks, cfg.defaults)
    && forall p, c :: g.Edge(p, c) <==> DependsOn(cfg.tasks, c, p)
  }

  lemma JoinableIff(g: Shape, cfg: Config, s: Step)
    requires Declares(g, cfg.tasks, cfg.defaults) && s.Depend?
    ensures Joinable(g, s) <==>
            IsDeclared(cfg.tasks, s.parent) && IsDeclared(cfg.tasks, s.child) && s.parent != s.child
  {
  }

  lemma JoinableThen(g: Shape, cfg: Config, t: TaskConfig)
    requires Declares(g, cfg.tasks, cfg.defaults) && t in cfg.tasks
    requires forall s :: s in AllDependencies(cfg.tasks) ==> Joinable(g, s)
    ensures DependsOnOthers(cfg.tasks, t)
  {
    hide Declares, Joinable, AllDependencies, IsDeclared;
    forall p | p in t.dependsOn
      ensures p != t.id && IsDeclared(cfg.tasks, p)
    {
      InAllDependencies(cfg.tasks, Depend(p, t.id));
      assert Joinable(g, Depend(p, t.id));
      JoinableIff(g, cfg, Depend(p, t.id));
    }
  }

  lemma AllJoinable(g: Shape, cfg: Config)
    requires Declares(g, cfg.tasks, cfg.defaults)
    ensures (forall s :: s in AllDependencies(cfg.tasks) ==> Joinable(g, s)) <==>
            forall t :: t in cfg.tasks ==> DependsOnOthers(cfg.tasks, t)
  {
    hide Declares, Joinable, AllDependencies, IsDeclared;
    if forall s :: s in AllDependencies(cfg.tasks) ==> Joinable(g, s) {
      forall t | t in cfg.tasks
        ensures DependsOnOthers(cfg.tasks, t)
      {
        JoinableThen(g, cfg, t);
      }
    }
    if forall t :: t in cfg.tasks ==> DependsOnOthers(cfg.tasks, t) {
      forall s | s in AllDependencies(cfg.tasks)
        ensures Joinable(g, s)
      {
        InAllDependencies(cfg.tasks, s);
        var t :| t in cfg.tasks && t.id == s.child && s.parent in t.dependsOn;
        TaskIsDeclared(cfg.tasks, t);
        assert DependsOnOthers(cfg.tasks, t);
        JoinableIff(g, cfg, s);
      }
    }
  }

  lemma TaskIsDeclared(tasks: seq<TaskConfig>, t: TaskConfig)
    requires t in tasks
    ensures IsDeclared(tasks, t.id)
  {
  }

  lemma ConnectedUsers(g: Shape, h: Shape, cfg: Config)
    requires Declares(g, cfg.tasks, cfg.defaults) && (forall p, c :: !g.Edge(p, c))
    requires Connects(g, h, AllDependencies(cfg.tasks))
    ensures UsersGraph(h, cfg)
  {
    hide Shape.Valid, Shape.Edge, AllDependencies, DependsOn, IsDeclared;
    forall p, c
      ensures h.Edge(p, c) <==> DependsOn(cfg.tasks, c, p)
    {
      InAllDependencies(cfg.tasks, Depend(p, c));
    }
  }

  /** The user's tasks make a graph exactly if nothing is wrong with them, and it is this one. */
  lemma UserIff(cfg: Config)
    ensures Exec(UserSteps(cfg)).Ok? <==> TasksFine(cfg.tasks)
    ensures Exec(UserSteps(cfg)).Ok? ==> UsersGraph(Exec(UserSteps(cfg)).value, cfg)
  {
    hide Exec, Declarations, AllDependencies, Joinable, Connects, UsersGraph, IsDeclared, Unrepeated;
    var declared, deps := Declarations(cfg.tasks, cfg.defaults), AllDependencies(cfg.tasks);
    DeclarationsIff(cfg.tasks, cfg.defaults);
    if Exec(declared).Err? {
      ExecStops(declared, deps);
    } else {
      DependenciesPlain(cfg.tasks);
      AllJoinable(Exec(declared).value, cfg);
      DependsIff(declared, deps);
      if Exec(declared + deps).Ok? {
        ConnectedUsers(Exec(declared).value, Exec(declared + deps).value, cfg);
      }
    }
  }

  // ----- the integrations -----

  function Added(auto: seq<Step>): set<string> {
    set s | s in auto && s.Integrate? :: s.id
  }

  /** No step is refused, and no id is used twice or is the id of a task in the graph. */
  ghost predicate AllNew(g: Shape, auto: seq<Step>) {
    && (forall i :: 0 <= i < |auto| ==> auto[i].Integrate? && auto[i].id !in g.Ids())
    && forall i, j :: 0 <= i < j < |auto| && auto[i].Integrate? && auto[j].Integrate? ==> auto[i].id != auto[j].id
  }

  lemma AllNewLast(g: Shape, auto: seq<Step>)
    requires auto != []
    ensures var init, s := auto[..|auto| - 1], auto[|auto| - 1];
      && (AllNew(g, auto) <==> AllNew(g, init) && s.Integrate? && s.id !in g.Ids() && s.id !in Added(init))
      && (s.Integrate? ==> Added(auto) == Added(init) + {s.id})
  {
    var init, s := auto[..|auto| - 1], auto[|auto| - 1];
    assert auto == init + [s];
    assert forall x :: x in auto <==> x in init || x == s;
    if AllNew(g, auto) {
      forall u | u in init && u.Integrate?
        ensures u.id != s.id
      {
        var i :| 0 <= i < |init| && init[i] == u;
        assert auto[i] == u && auto[|auto| - 1] == s;
      }
    }
    if AllNew(g, init) && s.Integrate? && s.id !in g.Ids() && s.id !in Added(init) {
      forall i, j | 0 <= i < j < |auto|
        ensures auto[i].Integrate? && auto[j].Integrate? && auto[i].id != auto[j].id
      {
        assert auto[i] == init[i] && init[i] in init;
      }
    }
  }

  /** The graph with the integrations added, each with the needs of its step. */
  ghost predicate Grown(g: Shape, h: Shape, auto: seq<Step>) {
    && OnlySinksAdded(g, h, auto) && h.Ids() == g.Ids() + Added(auto)
    && forall s :: s in auto ==> s.Integrate? && s.id in h.need && h.need[s.id] == s.need
  }

  lemma NotYetWired(auto: seq<Step>, x: string)
    requires x !in Added(auto)
    ensures forall p :: !WiredTo(auto, p, x)
  {
    assert forall i :: 0 <= i < |auto| && auto[i].Integrate? ==> auto[i] in auto && auto[i].id in Added(auto);
  }

  lemma GrowsOneMore(g: Shape, h: Shape, init: seq<Step>, s: Step)
    requires Grown(g, h, init) && s.Integrate? && IsAuto(s) && s.id !in h.Ids()
    ensures Apply(h, s).Ok? && Grown(g, Apply(h, s).value, init + [s])
  {
    hide OnlySinksAdded, Apply, IsAuto, WiredTo, Shape.Valid, Shape.Edge;
    NotYetWired(init, s.id);
    SinksValid(g, h, init);
    OneMoreSink(g, h, init, s);
    JoinedApply(h, s);
    var r := Apply(h, s).value;
    forall u | u in init + [s]
      ensures u.Integrate? && u.id in r.need && r.need[u.id] == u.need
    {
      if u in init {
        assert u.id in Added(init);
      }
    }
    assert Added(init + [s]) == Added(init) + {s.id} by {
      assert forall x :: x in init + [s] <==> x in init || x == s;
    }
  }

  lemma SinksValid(g: Shape, h: Shape, auto: seq<Step>)
    requires OnlySinksAdded(g, h, auto)
    ensures g.Valid() && h.Valid()
  {
  }

  lemma ApplyIff(h: Shape, s: Step)
    requires IsAuto(s)
    ensures Apply(h, s).Ok? <==> s.Integrate? && s.id !in h.Ids()
  {
  }

  /** Exactly new ids can be added. */
  lemma {:induction false} AutoIff(user: seq<Step>, auto: seq<Step>)
    requires Exec(user).Ok? && Exec(user).value.Valid() && AllAuto(auto)
    ensures Exec(user + auto).Ok? <==> AllNew(Exec(user).value, auto)
    ensures Exec(user + auto).Ok? ==> Grown(Exec(user).value, Exec(user + auto).value, auto)
    decreases |auto|
  {
    hide Exec, Apply, Grown, IsAuto, Shape.Valid, AllNew;
    var g := Exec(user).value;
    if auto == [] {
      assert user + auto == user;
      NothingAdded(g);
    } else {
      var init, s := auto[..|auto| - 1], auto[|auto| - 1];
      assert user + auto == user + init + [s] && auto == init + [s];
      AutoIff(user, init);
      AllNewLast(g, auto);
      ExecLast(user + init, s);
      if Exec(user + init).Ok? {
        ApplyIff(Exec(user + init).value, s);
        GrownIds(g, Exec(user + init).value, init);
        if s.Integrate? && s.id !in Exec(user + init).value.Ids() {
          GrowsOneMore(g, Exec(user + init).value, init, s);
        }
      }
    }
  }

  lemma GrownIds(g: Shape, h: Shape, auto: seq<Step>)
    requires Grown(g, h, auto)
    ensures h.Ids() == g.Ids() + Added(auto)
  {
  }

  lemma NothingAdded(g: Shape)
    requires g.Valid()
    ensures AllNew(g, []) && Grown(g, g, [])
  {
    NoSinksYet(g);
  }

  /** What an integration has become in the graph. */
  lemma Integrated(g: Shape, h: Shape, auto: seq<Step>, s: Step)
    requires Grown(g, h, auto) && AllNew(g, auto) && AllAuto(auto) && s in auto
    ensures s.Integrate? && s.id in h.Ids() && s.id in h.need && s.id in h.deps
    ensures h.need[s.id] == s.need && h.deps[s.id] == set p | p in s.after && p in h.Ids()
  {
    var i :| 0 <= i < |auto| && auto[i] == s;
    assert s.id in Added(auto);
    forall p
      ensures h.Edge(p, s.id) <==> p in s.after && p in h.Ids()
    {
      WiredOnce(g, auto, i, p);
      assert p in s.after ==> Sought(p) && IsAuto(auto[i]);
    }
    forall p
      ensures p in h.deps[s.id] <==> h.Edge(p, s.id)
    {
    }
  }

  lemma WiredOnce(g: Shape, auto: seq<Step>, i: nat, p: string)
    requires AllNew(g, auto) && i < |auto|
    ensures auto[i].Integrate? && (WiredTo(auto, p, auto[i].id) <==> p in auto[i].after)
  {
  }

  // ----- which configurations make a graph -----

  predicate KnownTool(t: Tool) {
    || t.image != ""
    || t.name in {"golangci-lint", "eslint", "ruff", "pylint", "rubocop", "shellcheck", "hadolint", "trivy",
                  "grype", "semgrep", "gosec", "sonarqube", "code-review"}
  }

  ghost predicate ToolsFine(tasks: seq<TaskConfig>, tools: Option<ToolSet>, prefix: string) {
    tools.Some? && tools.value.enabled ==>
      && (forall t :: t in tools.value.tools ==> KnownTool(t) && !IsDeclared(tasks, prefix + t.name))
      && forall i, j :: 0 <= i < j < |tools.value.tools| ==> tools.value.tools[i].name != tools.value.tools[j].name
  }

  ghost predicate SonarFine(tasks: seq<TaskConfig>, sonar: Option<Sonar>) {
    sonar.Some? && sonar.value.enabled ==>
      sonar.value.serverURL != "" && sonar.value.projectKey != "" && !IsDeclared(tasks, "sonarqube")
  }

  ghost predicate ReviewFine(tasks: seq<TaskConfig>, review: Option<Review>) {
    review.Some? && review.value.enabled ==>
      && (review.value.serverURL != "" || review.value.provider == "ollama" || review.value.apiKeySecret != "")
      && !IsDeclared(tasks, "review-pr")
  }

  ghost predicate WellFormed(cfg: Config) {
    && TasksFine(cfg.tasks)
    && ToolsFine(cfg.tasks, cfg.linters, "lint-") && SonarFine(cfg.tasks, cfg.sonar)
    && ToolsFine(cfg.tasks, cfg.security, "security-") && ReviewFine(cfg.tasks, cfg.review)
  }

  /** The steps all add tasks whose ids start like this. */
  ghost predicate Marked(auto: seq<Step>, mark: string) {
    forall x :: x in Added(auto) ==> mark <= x
  }

  lemma MarksApart(a: seq<Step>, left: string, b: seq<Step>, right: string)
    requires Marked(a, left) && Marked(b, right) && |left| == |right| && left != right
    ensures Added(a) !! Added(b)
  {
    forall x | x in Added(a)
      ensures x !in Added(b)
    {
      assert x[..|left|] == left;
    }
  }

  lemma AddedConcat(a: seq<Step>, b: seq<Step>)
    ensures Added(a + b) == Added(a) + Added(b)
  {
    assert forall s :: s in a + b <==> s in a || s in b;
  }

  lemma AllNewConcat(g: Shape, a: seq<Step>, b: seq<Step>)
    requires Added(a) !! Added(b)
    ensures AllNew(g, a + b) <==> AllNew(g, a) && AllNew(g, b)
  {
    var s := a + b;
    if AllNew(g, s) {
      assert forall i :: 0 <= i < |a| ==> a[i] == s[i];
      assert forall i :: 0 <= i < |b| ==> b[i] == s[|a| + i];
    }
    if AllNew(g, a) && AllNew(g, b) {
      forall i, j | 0 <= i < j < |s|
        ensures s[i].Integrate? && s[j].Integrate? && s[i].id != s[j].id
      {
        assert i < |a| ==> s[i] == a[i] && a[i] in a;
        assert j >= |a| ==> s[j] == b[j - |a|] && b[j - |a|] in b;
        assert i >= |a| ==> s[i] == b[i - |a|];
        if i < |a| <= j {
          assert a[i].id in Added(a) && b[j - |a|].id in Added(b);
        }
      }
    }
  }

  lemma HasImageIff(t: Tool)
    ensures HasImage(t) <==> KnownTool(t)
  {
  }

  lemma SamePrefix(prefix: string, a: string, b: string)
    ensures prefix + a == prefix + b <==> a == b
  {
    assert (prefix + a)[|prefix|..] == a && (prefix + b)[|prefix|..] == b;
  }

  /** A group of tool steps: refused for a tool without an image, otherwise named after its tool. */
  ghost predicate ToolSteps(steps: seq<Step>, tools: seq<Tool>, prefix: string) {
    && |steps| == |tools|
    && forall i :: 0 <= i < |tools| ==>
         if KnownTool(tools[i]) then steps[i].Integrate? && steps[i].id == prefix + tools[i].name else steps[i].Refuse?
  }

  lemma ToolsMarked(steps: seq<Step>, tools: seq<Tool>, prefix: string, mark: string)
    requires ToolSteps(steps, tools, prefix) && mark <= prefix
    ensures Marked(steps, mark)
  {
    forall x | x in Added(steps)
      ensures mark <= x
    {
      var s :| s in steps && s.Integrate? && s.id == x;
      var i :| 0 <= i < |steps| && steps[i] == s;
      assert x == prefix + tools[i].name;
    }
  }

  lemma ToolsNewIff(g: Shape, cfg: Config, steps: seq<Step>, tools: seq<Tool>, prefix: string)
    requires Declares(g, cfg.tasks, cfg.defaults) && ToolSteps(steps, tools, prefix)
    ensures AllNew(g, steps) <==> ToolsFine(cfg.tasks, Some(ToolSet(true, tools)), prefix)
  {
    hide KnownTool, IsDeclared, HasOwn, Shape.Valid;
    if AllNew(g, steps) {
      forall t | t in tools
        ensures KnownTool(t) && !IsDeclared(cfg.tasks, prefix + t.name)
      {
        var i :| 0 <= i < |tools| && tools[i] == t;
        assert steps[i].id !in g.Ids();
      }
      forall i, j | 0 <= i < j < |tools|
        ensures tools[i].name != tools[j].name
      {
        assert steps[i].id != steps[j].id;
        SamePrefix(prefix, tools[i].name, tools[j].name);
      }
    }
    if ToolsFine(cfg.tasks, Some(ToolSet(true, tools)), prefix) {
      forall i | 0 <= i < |steps|
        ensures steps[i].Integrate? && steps[i].id !in g.Ids()
      {
        assert tools[i] in tools;
      }
      forall i, j | 0 <= i < j < |steps|
        ensures steps[i].id != steps[j].id
      {
        SamePrefix(prefix, tools[i].name, tools[j].name);
      }
    }
  }

  lemma LinterStepsAre(cfg: Config)
    requires cfg.linters.Some? && cfg.linters.value.enabled
    ensures ToolSteps(LinterSteps(cfg), cfg.linters.value.tools, "lint-")
  {
    forall i | 0 <= i < |cfg.linters.value.tools| {
      HasImageIff(cfg.linters.value.tools[i]);
    }
    hide HasImage, KnownTool;
  }

  lemma ScannerStepsAre(cfg: Config)
    requires cfg.security.Some? && cfg.security.value.enabled
    ensures ToolSteps(SecuritySteps(cfg), cfg.security.value.tools, "security-")
  {
    forall i | 0 <= i < |cfg.security.value.tools| {
      HasImageIff(cfg.security.value.tools[i]);
    }
    hide HasImage, KnownTool;
  }

  lemma NothingNew(g: Shape)
    ensures AllNew(g, []) && Added([]) == {}
  {
  }

  lemma LintersIff(g: Shape, cfg: Config)
    requires Declares(g, cfg.tasks, cfg.defaults)
    ensures AllNew(g, LinterSteps(cfg)) <==> ToolsFine(cfg.tasks, cfg.linters, "lint-")
    ensures Marked(LinterSteps(cfg), "li")
  {
    hide ToolSteps, AllNew, Declares, KnownTool;
    NothingNew(g);
    if cfg.linters.Some? && cfg.linters.value.enabled {
      LinterStepsAre(cfg);
      ToolsMarked(LinterSteps(cfg), cfg.linters.value.tools, "lint-", "li");
      ToolsNewIff(g, cfg, LinterSteps(cfg), cfg.linters.value.tools, "lint-");
    }
  }

  lemma ScannersIff(g: Shape, cfg: Config)
    requires Declares(g, cfg.tasks, cfg.defaults)
    ensures AllNew(g, SecuritySteps(cfg)) <==> ToolsFine(cfg.tasks, cfg.security, "security-")
    ensures Marked(SecuritySteps(cfg), "se")
  {
    hide ToolSteps, AllNew, Declares, KnownTool;
    NothingNew(g);
    if cfg.security.Some? && cfg.security.value.enabled {
      ScannerStepsAre(cfg);
      ToolsMarked(SecuritySteps(cfg), cfg.security.value.tools, "security-", "se");
      ToolsNewIff(g, cfg, SecuritySteps(cfg), cfg.security.value.tools, "security-");
    }
  }

  lemma SingleNew(g: Shape, s: Step)
    ensures AllNew(g, [s]) <==> s.Integrate? && s.id !in g.Ids()
    ensures Added([s]) == if s.Integrate? then {s.id} else {}
  {
    assert [s][0] == s && s in [s];
  }

  lemma SonarIff(g: Shape, cfg: Config)
    requires Declares(g, cfg.tasks, cfg.defaults)
    ensures AllNew(g, SonarSteps(cfg)) <==> SonarFine(cfg.tasks, cfg.sonar)
    ensures Marked(SonarSteps(cfg), "so")
  {
    hide AllNew, IsDeclared;
    NothingNew(g);
    assert "so" <= "sonarqube";
    if SonarSteps(cfg) != [] {
      SingleNew(g, SonarSteps(cfg)[0]);
      assert SonarSteps(cfg) == [SonarSteps(cfg)[0]];
    }
  }

  lemma ReviewIff(g: Shape, cfg: Config)
    requires Declares(g, cfg.tasks, cfg.defaults)
    ensures AllNew(g, ReviewSteps(cfg)) <==> ReviewFine(cfg.tasks, cfg.review)
    ensures Marked(ReviewSteps(cfg), "re")
  {
    hide AllNew, IsDeclared;
    NothingNew(g);
    assert "re" <= "review-pr";
    if ReviewSteps(cfg) != [] {
      SingleNew(g, ReviewSteps(cfg)[0]);
      assert ReviewSteps(cfg) == [ReviewSteps(cfg)[0]];
    }
  }

  lemma AutoStepsNewIff(g: Shape, cfg: Config)
    requires Declares(g, cfg.tasks, cfg.defaults)
    ensures AllNew(g, AutoSteps(cfg)) <==>
            && ToolsFine(cfg.tasks, cfg.linters, "lint-") && SonarFine(cfg.tasks, cfg.sonar)
            && ToolsFine(cfg.tasks, cfg.security, "security-") && ReviewFine(cfg.tasks, cfg.review)
  {
    hide AllNew, Declares, LinterSteps, SonarSteps, SecuritySteps, ReviewSteps, ToolsFine, SonarFine, ReviewFine,
         Marked, Added;
    var a, b, c, d := LinterSteps(cfg), SonarSteps(cfg), SecuritySteps(cfg), ReviewSteps(cfg);
    LintersIff(g, cfg);
    SonarIff(g, cfg);
    ScannersIff(g, cfg);
    ReviewIff(g, cfg);
    MarksApart(a, "li", b, "so");
    MarksApart(a, "li", c, "se");
    MarksApart(b, "so", c, "se");
    MarksApart(a, "li", d, "re");
    MarksApart(b, "so", d, "re");
    MarksApart(c, "se", d, "re");
    AddedConcat(a, b);
    AddedConcat(a + b, c);
    AllNewConcat(g, a, b);
    AllNewConcat(g, a + b, c);
    AllNewConcat(g, a + b + c, d);
  }

  lemma UsersDeclares(g: Shape, cfg: Config)
    requires UsersGraph(g, cfg)
    ensures Declares(g, cfg.tasks, cfg.defaults) && g.Valid()
  {
  }

  /** Exactly the well-formed configurations make a graph; it is the user's, grown by the
      integrations. */
  lemma ProgramIff(cfg: Config)
    ensures Exec(Program(cfg)).Ok? <==> WellFormed(cfg)
    ensures Exec(Program(cfg)).Ok? ==>
      && Exec(UserSteps(cfg)).Ok? && UsersGraph(Exec(UserSteps(cfg)).value, cfg)
      && AllNew(Exec(UserSteps(cfg)).value, AutoSteps(cfg))
      && Grown(Exec(UserSteps(cfg)).value, Exec(Program(cfg)).value, AutoSteps(cfg))
  {
    hide Exec, UserSteps, AutoSteps, TasksFine, ToolsFine, SonarFine, ReviewFine, UsersGraph, AllNew, Grown, AllAuto,
         Declares, Shape.Valid;
    UserIff(cfg);
    if Exec(UserSteps(cfg)).Err? {
      ExecStops(UserSteps(cfg), AutoSteps(cfg));
    } else {
      UsersDeclares(Exec(UserSteps(cfg)).value, cfg);
      AutoIsAuto(cfg);
      AutoIff(UserSteps(cfg), AutoSteps(cfg));
      AutoStepsNewIff(Exec(UserSteps(cfg)).value, cfg);
    }
  }

  // ----- circles -----

  ghost predicate Circle(tasks: seq<TaskConfig>, path: seq<string>) {
    && |path| >= 2 && path[0] == path[|path| - 1]
    && forall i :: 0 < i < |path| ==> DependsOn(tasks, path[i], path[i - 1])
  }

  /** Some task depends on itself through others. */
  ghost predicate Circular(tasks: seq<TaskConfig>) {
    exists path :: Circle(tasks, path)
  }

  lemma CircleIff(g: Shape, cfg: Config, path: seq<string>)
    requires UsersGraph(g, cfg)
    ensures Loop(g, path) <==> Circle(cfg.tasks, path)
  {
    hide Declares, DependsOn, Shape.Edge;
    if Loop(g, path) {
      forall i | 0 < i < |path|
        ensures DependsOn(cfg.tasks, path[i], path[i - 1])
      {
        assert g.Edge(path[i - 1], path[i]);
      }
    }
    if Circle(cfg.tasks, path) {
      forall i | 0 < i < |path|
        ensures g.Edge(path[i - 1], path[i])
      {
        assert DependsOn(cfg.tasks, path[i], path[i - 1]);
      }
    }
  }

  lemma CircularIff(cfg: Config)
    requires Exec(Program(cfg)).Ok?
    ensures Cyclic(Exec(Program(cfg)).value) <==> Circular(cfg.tasks)
  {
    hide Exec, UserSteps, AutoSteps, UsersGraph, AllNew, Grown, Loop, Circle, OnlySinksAdded;
    ProgramIff(cfg);
    CycleIsTheUsers(cfg);
    var g := Exec(UserSteps(cfg)).value;
    if path :| Loop(g, path) {
      CircleIff(g, cfg, path);
    }
    if path :| Circle(cfg.tasks, path) {
      CircleIff(g, cfg, path);
    }
  }

  // ----- the graph, task by task -----

  lemma ParentsAre(h: Shape, x: string)
    requires h.Valid() && x in h.deps
    ensures h.deps[x] == set p | p in h.Ids() && h.Edge(p, x)
  {
  }

  lemma DependsOnIff(tasks: seq<TaskConfig>, t: TaskConfig, p: string)
    requires Unrepeated(tasks) && t in tasks
    ensures DependsOn(tasks, t.id, p) <==> p in t.dependsOn
  {
    if DependsOn(tasks, t.id, p) {
      var u :| u in tasks && u.id == t.id && p in u.dependsOn;
      var i :| 0 <= i < |tasks| && tasks[i] == t;
      var j :| 0 <= j < |tasks| && tasks[j] == u;
      assert i == j;
    }
  }

  /** A task of the user's in the graph: its own needs, and below exactly what it depends on. */
  lemma UserTask(cfg: Config, t: TaskConfig)
    requires Exec(Program(cfg)).Ok? && t in cfg.tasks
    ensures var h := Exec(Program(cfg)).value;
      && t.id in h.Ids() && t.id in h.deps && HasOwn(h, t, cfg.defaults)
      && h.deps[t.id] == set p | p in t.dependsOn
  {
    hide Exec, UserSteps, AutoSteps, AllNew, IsDeclared, Sink, WiredTo, DependsOn, PolicyOf;
    ProgramIff(cfg);
    var g, h := Exec(UserSteps(cfg)).value, Exec(Program(cfg)).value;
    TaskIsDeclared(cfg.tasks, t);
    assert t.id in g.Ids() && HasOwn(g, t, cfg.defaults);
    ParentsAre(h, t.id);
    forall p
      ensures h.Edge(p, t.id) <==> p in t.dependsOn
    {
      DependsOnIff(cfg.tasks, t, p);
    }
  }

  /** An integration in the graph: the needs of its step, and below those of the tasks it looks for
      that exist. */
  lemma AutoTask(cfg: Config, s: Step)
    requires Exec(Program(cfg)).Ok? && s in AutoSteps(cfg)
    ensures var h := Exec(Program(cfg)).value;
      && s.Integrate? && s.id in h.Ids() && s.id in h.need && s.id in h.deps
      && h.need[s.id] == s.need && h.deps[s.id] == set p | p in s.after && p in h.Ids()
  {
    hide Exec, UserSteps, AutoSteps, AllNew, Grown, AllAuto, UsersGraph;
    ProgramIff(cfg);
    AutoIsAuto(cfg);
    Integrated(Exec(UserSteps(cfg)).value, Exec(Program(cfg)).value, AutoSteps(cfg), s);
  }

  lemma InAutoSteps(cfg: Config, s: Step)
    ensures s in AutoSteps(cfg) <==>
            s in LinterSteps(cfg) || s in SonarSteps(cfg) || s in SecuritySteps(cfg) || s in ReviewSteps(cfg)
  {
    hide LinterSteps, SonarSteps, SecuritySteps, ReviewSteps;
  }

  /** The task is there because the configuration asks for this integration. */
  ghost predicate IsIntegration(cfg: Config, x: string) {
    || (cfg.linters.Some? && cfg.linters.value.enabled
        && exists t :: t in cfg.linters.value.tools && x == "lint-" + t.name)
    || (cfg.sonar.Some? && cfg.sonar.value.enabled && x == "sonarqube")
    || (cfg.security.Some? && cfg.security.value.enabled
        && exists t :: t in cfg.security.value.tools && x == "security-" + t.name)
    || (cfg.review.Some? && cfg.review.value.enabled && x == "review-pr")
  }

  lemma AutoIsIntegration(cfg: Config, s: Step)
    requires s in AutoSteps(cfg) && s.Integrate?
    ensures IsIntegration(cfg, s.id)
  {
    hide AutoSteps, LinterSteps, SecuritySteps;
    InAutoSteps(cfg, s);
    if s in LinterSteps(cfg) {
      LinterIsIntegration(cfg, s);
    } else if s in SecuritySteps(cfg) {
      ScannerIsIntegration(cfg, s);
    }
  }

  lemma LinterIsIntegration(cfg: Config, s: Step)
    requires s in LinterSteps(cfg) && s.Integrate?
    ensures IsIntegration(cfg, s.id)
  {
    hide HasImage;
    var i :| 0 <= i < |LinterSteps(cfg)| && LinterSteps(cfg)[i] == s;
    assert cfg.linters.value.tools[i] in cfg.linters.value.tools;
  }

  lemma ScannerIsIntegration(cfg: Config, s: Step)
    requires s in SecuritySteps(cfg) && s.Integrate?
    ensures IsIntegration(cfg, s.id)
  {
    hide HasImage;
    var i :| 0 <= i < |SecuritySteps(cfg)| && SecuritySteps(cfg)[i] == s;
    assert cfg.security.value.tools[i] in cfg.security.value.tools;
  }

  /** There are no other tasks. */
  lemma OnlyThese(cfg: Config, x: string)
    requires Exec(Program(cfg)).Ok? && x in Exec(Program(cfg)).value.Ids()
    ensures IsDeclared(cfg.tasks, x) || IsIntegration(cfg, x)
  {
    hide Exec, UserSteps, AutoSteps, AllNew, OnlySinksAdded, IsDeclared, IsIntegration, HasOwn, DependsOn;
    ProgramIff(cfg);
    if !IsDeclared(cfg.tasks, x) {
      assert x in Added(AutoSteps(cfg));
      var s :| s in AutoSteps(cfg) && s.Integrate? && s.id == x;
      AutoIsIntegration(cfg, s);
    }
  }

  /** The task has these needs, and waits for those of the named tasks that exist. */
  ghost predicate Follows(h: Shape, id: string, need: Need, after: set<string>) {
    && id in h.Ids() && id in h.need && id in h.deps
    && h.need[id] == need && h.deps[id] == after * h.Ids()
  }

  lemma AutoFollows(cfg: Config, s: Step)
    requires Exec(Program(cfg)).Ok? && s in AutoSteps(cfg)
    ensures s.Integrate? && Follows(Exec(Program(cfg)).value, s.id, s.need, Elements(s.after))
  {
    hide Exec, Program, AutoSteps;
    AutoTask(cfg, s);
  }

  lemma LinterTask(cfg: Config, i: nat)
    requires Exec(Program(cfg)).Ok? && cfg.linters.Some? && cfg.linters.value.enabled
    requires i < |cfg.linters.value.tools|
    ensures Follows(Exec(Program(cfg)).value, "lint-" + cfg.linters.value.tools[i].name,
                    Need(cfg.defaults.cpu, if cfg.defaults.memory < 2048 then 2048 else cfg.defaults.memory,
                         cfg.defaults.disk), {"clone"})
  {
    hide Exec, Program, AutoSteps, Follows, HasImage;
    var s := LinterSteps(cfg)[i];
    InAutoSteps(cfg, s);
    AutoFollows(cfg, s);
    assert Elements(["clone"]) == {"clone"};
  }

  lemma ScannerTask(cfg: Config, i: nat)
    requires Exec(Program(cfg)).Ok? && cfg.security.Some? && cfg.security.value.enabled
    requires i < |cfg.security.value.tools|
    ensures Follows(Exec(Program(cfg)).value, "security-" + cfg.security.value.tools[i].name,
                    Need(cfg.defaults.cpu, 1024, cfg.defaults.disk), {"clone"})
  {
    hide Exec, Program, AutoSteps, Follows, HasImage;
    var s := SecuritySteps(cfg)[i];
    InAutoSteps(cfg, s);
    AutoFollows(cfg, s);
    assert Elements(["clone"]) == {"clone"};
  }

  lemma SonarTask(cfg: Config)
    requires Exec(Program(cfg)).Ok? && cfg.sonar.Some? && cfg.sonar.value.enabled
    ensures Follows(Exec(Program(cfg)).value, "sonarqube", Need(2000, 2048, cfg.defaults.disk),
                    {"compile", "test", "build", "clone"})
  {
    hide Exec, Program, AutoSteps, Follows;
    var s := SonarSteps(cfg)[0];
    InAutoSteps(cfg, s);
    AutoFollows(cfg, s);
    assert Elements(["compile", "test", "build", "clone"]) == {"compile", "test", "build", "clone"};
  }

  lemma ReviewTask(cfg: Config)
    requires Exec(Program(cfg)).Ok? && cfg.review.Some? && cfg.review.value.enabled
    ensures Follows(Exec(Program(cfg)).value, "review-pr", Need(cfg.defaults.cpu, 512, cfg.defaults.disk), {"clone"})
  {
    hide Exec, Program, AutoSteps, Follows;
    var s := ReviewSteps(cfg)[0];
    InAutoSteps(cfg, s);
    AutoFollows(cfg, s);
    assert Elements(["clone"]) == {"clone"};
  }
}
