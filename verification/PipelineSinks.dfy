/** Integration tasks are sinks: they bring no cycle into a pipeline, and hide none. */
module PipelineSinks {
  import opened Tasks
  import opened GraphSpec
  import opened Cycles
  import opened PipelineSpec

  /** The names that integrations look for among the user's tasks. */
  predicate Sought(id: string) {
    id == "clone" || id == "compile" || id == "test" || id == "build"
  }

  predicate IsAuto(s: Step) {
    s.Refuse? || (s.Integrate? && s.id != "" && !Sought(s.id) && forall p :: p in s.after ==> Sought(p))
  }

  predicate AllAuto(steps: seq<Step>) {
    forall i :: 0 <= i < |steps| ==> IsAuto(steps[i])
  }

  /** No integration task has one of those names. */
  lemma AutoIsAuto(cfg: Config)
    ensures AllAuto(AutoSteps(cfg))
  {
    LintersAuto(cfg);
    ScannersAuto(cfg);
    OthersAuto(cfg);
    AllAutoConcat(LinterSteps(cfg), SonarSteps(cfg));
    AllAutoConcat(LinterSteps(cfg) + SonarSteps(cfg), SecuritySteps(cfg));
    AllAutoConcat(LinterSteps(cfg) + SonarSteps(cfg) + SecuritySteps(cfg), ReviewSteps(cfg));
  }

  lemma AllAutoConcat(a: seq<Step>, b: seq<Step>)
    requires AllAuto(a) && AllAuto(b)
    ensures AllAuto(a + b)
  {
  }

  lemma NotSought(id: string)
    requires id != "" && id[0] != 'c' && id[0] != 't' && id[0] != 'b'
    ensures !Sought(id)
  {
  }

  lemma LintersAuto(cfg: Config)
    ensures AllAuto(LinterSteps(cfg))
  {
    var steps := LinterSteps(cfg);
    forall i | 0 <= i < |steps|
      ensures IsAuto(steps[i])
    {
      var t := cfg.linters.value.tools[i];
      assert ("lint-" + t.name)[0] == 'l';
      NotSought("lint-" + t.name);
    }
  }

  lemma ScannersAuto(cfg: Config)
    ensures AllAuto(SecuritySteps(cfg))
  {
    var steps := SecuritySteps(cfg);
    forall i | 0 <= i < |steps|
      ensures IsAuto(steps[i])
    {
      var t := cfg.security.value.tools[i];
      assert ("security-" + t.name)[0] == 's';
      NotSought("security-" + t.name);
    }
  }

  lemma OthersAuto(cfg: Config)
    ensures AllAuto(SonarSteps(cfg)) && AllAuto(ReviewSteps(cfg))
  {
    assert "sonarqube"[0] == 's' && "review-pr"[0] == 'r';
    NotSought("sonarqube");
    NotSought("review-pr");
  }

  // ----- sinks and cycles -----

  ghost predicate Sink(g: Shape, x: string) {
    forall c :: !g.Edge(x, c)
  }

  /** A graph with some sinks more has the same cycles. */
  lemma SinksKeepCycles(g: Shape, h: Shape)
    requires forall p, c :: g.Edge(p, c) ==> h.Edge(p, c)
    requires forall p, c :: h.Edge(p, c) && !g.Edge(p, c) ==> Sink(h, c)
    ensures Cyclic(h) <==> Cyclic(g)
  {
    if path :| Loop(g, path) {
      assert Loop(h, path);
    }
    if path :| Loop(h, path) {
      forall i | 0 < i < |path|
        ensures g.Edge(path[i - 1], path[i])
      {
        assert h.Edge(path[i - 1], path[i]);
        if i + 1 < |path| {
          assert h.Edge(path[i], path[i + 1]);
        } else {
          assert h.Edge(path[0], path[1]) && path[i] == path[0];
        }
      }
      assert Loop(g, path);
    }
  }

  /** The graph with integration tasks added: all as before among the old tasks, and the new
      ones without children, each below those of the sought tasks that the steps name. */
  ghost predicate OnlySinksAdded(g: Shape, h: Shape, steps: seq<Step>) {
    && g.Valid() && h.Valid() && g.Ids() <= h.Ids()
    && (forall x :: x in g.Ids() ==> h.policy[x] == g.policy[x] && h.need[x] == g.need[x])
    && (forall p, c :: c in g.Ids() ==> (h.Edge(p, c) <==> g.Edge(p, c)))
    && (forall x :: x in h.Ids() && x !in g.Ids() ==> Sink(h, x) && h.policy[x] == OnSuccess && !Sought(x))
    && (forall p, x :: x !in g.Ids() ==> (h.Edge(p, x) <==> p in g.Ids() && WiredTo(steps, p, x)))
  }

  ghost predicate WiredTo(steps: seq<Step>, p: string, x: string) {
    exists i :: 0 <= i < |steps| && steps[i].Integrate? && steps[i].id == x && p in steps[i].after
  }

  lemma WiredExtends(steps: seq<Step>, s: Step, p: string, x: string)
    ensures WiredTo(steps + [s], p, x) <==> WiredTo(steps, p, x) || (s.Integrate? && s.id == x && p in s.after)
  {
    if WiredTo(steps, p, x) {
      var i :| 0 <= i < |steps| && steps[i].Integrate? && steps[i].id == x && p in steps[i].after;
      assert (steps + [s])[i] == steps[i];
    }
    assert (steps + [s])[|steps|] == s;
  }

  /** One integration task has joined the graph, below some of its tasks. */
  ghost predicate Joined(h: Shape, r: Shape, s: Step)
    requires s.Integrate?
  {
    && h.Valid() && r.Valid() && s.id !in h.Ids() && r.Ids() == h.Ids() + {s.id}
    && r.policy == h.policy[s.id := OnSuccess] && r.need == h.need[s.id := s.need]
    && forall p, c :: r.Edge(p, c) <==> h.Edge(p, c) || (c == s.id && p in s.after && p in h.Ids())
  }

  lemma JoinedApply(h: Shape, s: Step)
    requires h.Valid() && s.Integrate? && IsAuto(s) && s.id !in h.Ids()
    ensures Apply(h, s).Ok? && Joined(h, Apply(h, s).value, s)
  {
    var mid := h.WithTask(s.id, OnSuccess, s.need);
    WithTaskValid(h, s.id, OnSuccess, s.need);
    EdgesWired(mid, s.after, s.id);
    NeedWired(mid, s.after, s.id);
  }

  /** The newcomer is a sink, and the old sinks stay sinks. */
  lemma JoinedSinks(g: Shape, h: Shape, r: Shape, steps: seq<Step>, s: Step)
    requires OnlySinksAdded(g, h, steps) && s.Integrate? && IsAuto(s) && Joined(h, r, s)
    ensures forall x :: x in r.Ids() && x !in g.Ids() ==> Sink(r, x) && r.policy[x] == OnSuccess && !Sought(x)
  {
    forall x | x in r.Ids() && x !in g.Ids()
      ensures Sink(r, x)
    {
      forall c
        ensures !r.Edge(x, c)
      {
        assert x in h.Ids() ==> !Sought(x) && !h.Edge(x, c);
      }
    }
  }

  lemma JoinedEdges(g: Shape, h: Shape, r: Shape, steps: seq<Step>, s: Step)
    requires OnlySinksAdded(g, h, steps) && s.Integrate? && IsAuto(s) && Joined(h, r, s)
    requires forall p :: !WiredTo(steps, p, s.id)
    ensures forall p, c :: c in g.Ids() ==> (r.Edge(p, c) <==> g.Edge(p, c))
    ensures forall p, x :: x !in g.Ids() ==> (r.Edge(p, x) <==> p in g.Ids() && WiredTo(steps + [s], p, x))
  {
    forall p, x | x !in g.Ids()
      ensures r.Edge(p, x) <==> p in g.Ids() && WiredTo(steps + [s], p, x)
    {
      WiredExtends(steps, s, p, x);
    }
  }

  /** One more integration task. */
  lemma OneMoreSink(g: Shape, h: Shape, steps: seq<Step>, s: Step)
    requires OnlySinksAdded(g, h, steps) && s.Integrate? && IsAuto(s) && s.id !in h.edges
    requires forall p :: !WiredTo(steps, p, s.id)
    ensures Apply(h, s).Ok? && OnlySinksAdded(g, Apply(h, s).value, steps + [s])
    ensures Apply(h, s).value.Ids() == h.Ids() + {s.id}
  {
    hide Apply, IsAuto, Sink, WiredTo, Shape.Valid, Shape.Edge;
    JoinedApply(h, s);
    JoinedSinks(g, h, Apply(h, s).value, steps, s);
    JoinedEdges(g, h, Apply(h, s).value, steps, s);
  }

  lemma NoSinksYet(g: Shape)
    requires g.Valid()
    ensures OnlySinksAdded(g, g, [])
  {
  }

  lemma {:induction false} NeedWired(g: Shape, after: seq<string>, id: string)
    requires g.Valid() && id in g.edges && id !in after
    ensures Wire(g, after, id).need == g.need
    decreases |after|
  {
    if after != [] {
      EdgesWired(g, after[..|after| - 1], id);
      NeedWired(g, after[..|after| - 1], id);
    }
  }

  lemma Addable(h: Shape, s: Step)
    requires IsAuto(s) && Apply(h, s).Ok?
    ensures s.Integrate? && s.id !in h.Ids()
  {
  }

  /** After the integration steps, if none is refused. */
  lemma {:induction false} AutoAddsSinks(user: seq<Step>, auto: seq<Step>)
    requires Exec(user).Ok? && Exec(user).value.Valid() && Exec(user + auto).Ok? && AllAuto(auto)
    ensures OnlySinksAdded(Exec(user).value, Exec(user + auto).value, auto)
    ensures forall i :: 0 <= i < |auto| ==> auto[i].Integrate? && auto[i].id in Exec(user + auto).value.Ids()
    decreases |auto|
  {
    hide OnlySinksAdded, Apply, Exec, IsAuto, Shape.Valid;
    if auto == [] {
      assert user + auto == user;
      NoSinksYet(Exec(user).value);
    } else {
      var init, s := auto[..|auto| - 1], auto[|auto| - 1];
      assert user + auto == user + init + [s] && auto == init + [s];
      ExecLast(user + init, s);
      AutoAddsSinks(user, init);
      var g, h := Exec(user).value, Exec(user + init).value;
      Addable(h, s);
      OneMoreSink(g, h, init, s);
    }
  }

  lemma {:induction false} DependenciesPlain(tasks: seq<TaskConfig>)
    ensures forall i :: 0 <= i < |AllDependencies(tasks)| ==> AllDependencies(tasks)[i].Depend?
    decreases |tasks|
  {
    if tasks != [] {
      DependenciesPlain(tasks[..|tasks| - 1]);
    }
  }

  /** Whenever all integration tasks can be added, the pipeline is rejected for a cycle exactly if
      what the user declared has a cycle, and is otherwise that graph with sinks added. */
  lemma CycleIsTheUsers(cfg: Config)
    requires Exec(Program(cfg)).Ok?
    ensures Exec(UserSteps(cfg)).Ok?
    ensures OnlySinksAdded(Exec(UserSteps(cfg)).value, Exec(Program(cfg)).value, AutoSteps(cfg))
    ensures Cyclic(Exec(Program(cfg)).value) <==> Cyclic(Exec(UserSteps(cfg)).value)
  {
    if Exec(UserSteps(cfg)).Err? {
      ExecStops(UserSteps(cfg), AutoSteps(cfg));
    }
    DependenciesPlain(cfg.tasks);
    ExecValid(UserSteps(cfg));
    AutoIsAuto(cfg);
    AutoAddsSinks(UserSteps(cfg), AutoSteps(cfg));
    SinksKeepCycles(Exec(UserSteps(cfg)).value, Exec(Program(cfg)).value);
  }
}
