/** The scheduler (pkg/scheduler/scheduler.go) on the heap. Every method is proved to have
    performed a permitted run of the SchedulerSpec actions: exactly the one that its contract
    names, or, for a scheduling cycle, one of scans and dispatches that it returns. */
module Schedulers {
  import opened Collections
  import opened Tasks
  import opened GraphSpec
  import opened Graphs
  import opened Workers
  import opened SchedulerSpec
  import opened ScheduleCycle
  import opened SchedulerActions
  import opened Cycles

  class Build {
    const id: string
    const graph: Graph
    var createdAt: Option<int>
    var startedAt: Option<int>
    var finishedAt: Option<int>

    constructor (id: string, graph: Graph)
      ensures this.id == id && this.graph == graph
    {
      this.id, this.graph := id, graph;
      createdAt, startedAt, finishedAt := None, None, None;
    }
  }

  datatype ReportError = BuildNotFound | UnknownTask | Refused

  ghost function IdsOf(tasks: seq<Task>): (ids: seq<string>)
    ensures |ids| == |tasks|
  {
    seq(|tasks|, i requires 0 <= i < |tasks| => tasks[i].id)
  }

  lemma IdsTail(tasks: seq<Task>, i: nat)
    requires i < |tasks|
    ensures IdsOf(tasks[i..]) != [] && IdsOf(tasks[i..])[0] == tasks[i].id
    ensures IdsOf(tasks[i..])[1..] == IdsOf(tasks[i + 1..])
  {
  }

  ghost predicate Apart(m: map<string, Task>, n: map<string, Task>) {
    forall x, y :: x in m && y in n ==> m[x] != n[y]
  }

  class Scheduler {
    var builds: map<string, Build>
    const registry: Registry
    var taskWorker: map<string, string>
    var taskBuild: map<string, string>
    var buildWorkers: map<string, set<string>>

    ghost function Graphs(): set<Graph>
      reads this`builds
    {
      set b | b in builds :: builds[b].graph
    }

    /** The builds' graphs are validated, and share no task. */
    ghost predicate Valid()
      reads this`builds, Graphs(), registry
    {
      && registry.Valid()
      && (forall b :: b in builds ==>
            builds[b].id == b && builds[b].graph.Valid() && builds[b].graph.Ordered())
      && (forall b, c {:trigger Apart(builds[b].graph.tasks, builds[c].graph.tasks)} ::
            b in builds && c in builds && b != c ==> Apart(builds[b].graph.tasks, builds[c].graph.tasks))
    }

    ghost function AllTasks(): set<Task>
      reads this`builds, Graphs()
    {
      set b, x | b in builds && x in builds[b].graph.tasks :: builds[b].graph.tasks[x]
    }

    ghost function Builds(): map<string, BuildView>
      reads this`builds, Graphs(), AllTasks()
    {
      map b | b in builds ::
        BuildView(builds[b].graph.shape, map x | x in builds[b].graph.tasks :: builds[b].graph.tasks[x].state)
    }

    ghost function Status(): View
      reads this, Graphs(), AllTasks(), registry, registry.workers.Values
    {
      View(Builds(), registry.Slots(), taskWorker, taskBuild, buildWorkers)
    }

    lemma AboutStatus()
      ensures Status() == View(Builds(), registry.Slots(), taskWorker, taskBuild, buildWorkers)
    {
    }

    lemma AboutRegistry()
      requires Valid()
      ensures registry.Valid() && registry.Slots().Keys == registry.workers.Keys
    {
    }

    constructor (registry: Registry)
      requires registry.Valid()
      ensures Valid() && this.registry == registry && builds == map[]
      ensures Status() == EMPTY.(workers := registry.Slots())
    {
      this.registry := registry;
      builds, taskWorker, taskBuild, buildWorkers := map[], map[], map[], map[];
    }

    // ----- one task to one worker -----

    /** Best fit: fails only when no worker can take the task. */
    method PickWorker(n: Need) returns (choice: Option<string>)
      requires registry.Valid()
      ensures choice.None? ==> NoneAccepts(registry.Slots(), n)
      ensures choice.Some? ==> BestFit(registry.Slots(), n, choice.value)
      ensures choice.None? ==> forall o :: o in registry.workers ==> var w := registry.workers[o];
                || w.state != Active || w.runningTasks >= w.maxTasks
                || w.availableCPU < n.cpu || w.availableMemory < n.memory || w.availableDisk < n.disk
      ensures choice.Some? ==>
        && choice.value in registry.workers && registry.workers[choice.value].CanAcceptTask(n)
        && forall o :: o in registry.workers && registry.workers[o].CanAcceptTask(n) ==>
             var w, v := registry.workers[choice.value], registry.workers[o];
             w.availableCPU - n.cpu + (w.availableMemory - n.memory) + (w.availableDisk - n.disk)
               <= v.availableCPU - n.cpu + (v.availableMemory - n.memory) + (v.availableDisk - n.disk)
    {
      var active := registry.ActiveWorkers();
      choice := None;
      var bestScore: int := 0xFFFF_FFFF_FFFF_FFFF;
      for i := 0 to |active|
        invariant choice.None? ==> bestScore == 0xFFFF_FFFF_FFFF_FFFF
        invariant choice.None? ==> forall j :: 0 <= j < i ==> !Accepts(active[j].Status(), n)
        invariant choice.Some? ==>
                    && choice.value in registry.workers
                    && Accepts(registry.workers[choice.value].Status(), n)
                    && bestScore == Leftover(registry.workers[choice.value].Status(), n)
        invariant forall j :: 0 <= j < i && Accepts(active[j].Status(), n) ==>
                    bestScore <= Leftover(active[j].Status(), n)
      {
        var w := active[i];
        if w.CanAcceptTask(n) {
          var score := (w.availableCPU - n.cpu) + (w.availableMemory - n.memory) + (w.availableDisk - n.disk);
          if score < bestScore {
            bestScore := score;
            choice := Some(w.id);
          }
        }
      }
      PickedAll(active, n);
    }

    lemma PickedAll(active: seq<Info>, n: Need)
      requires registry.Valid()
      requires forall w :: w in active <==> w in registry.workers.Values && w.state == Active
      ensures forall o :: o in registry.workers && Accepts(registry.workers[o].Status(), n) ==>
                registry.workers[o] in active
    {
      forall o | o in registry.workers && Accepts(registry.workers[o].Status(), n)
        ensures registry.workers[o] in active
      {
        assert registry.workers[o] in registry.workers.Values;
      }
    }

    /** The builds when no task but one, given by its build and its id, has changed state. */
    twostate lemma TaskWritten(at: (string, string))
      requires builds == old(builds) && at.0 in builds && at.1 in builds[at.0].graph.tasks
      requires forall c :: c in builds ==>
                 && builds[c].graph.shape == old(builds[c].graph.shape)
                 && builds[c].graph.tasks == old(builds[c].graph.tasks)
      requires forall c, y :: c in builds && y in builds[c].graph.tasks && !(c == at.0 && y == at.1) ==>
                 builds[c].graph.tasks[y].state == old(builds[c].graph.tasks[y].state)
      ensures Builds() == WithState(old(Builds()), at.0, at.1, builds[at.0].graph.tasks[at.1].state)
    {
      var was := WithState(old(Builds()), at.0, at.1, builds[at.0].graph.tasks[at.1].state);
      forall c | c in builds
        ensures Builds()[c] == was[c]
      {
        assert Builds()[c].states == was[c].states;
      }
    }

    /** The builds when the workers alone have changed. */
    twostate lemma BuildsKept()
      requires builds == old(builds)
      requires forall c :: c in builds ==>
                 && builds[c].graph.shape == old(builds[c].graph.shape)
                 && builds[c].graph.tasks == old(builds[c].graph.tasks)
      requires forall c, y :: c in builds && y in builds[c].graph.tasks ==>
                 builds[c].graph.tasks[y].state == old(builds[c].graph.tasks[y].state)
      ensures Builds() == old(Builds())
    {
      forall c | c in builds
        ensures Builds()[c] == old(Builds())[c]
      {
        assert Builds()[c].states == old(Builds())[c].states;
      }
    }

    /** The workers when tasks alone have changed. */
    twostate lemma SlotsKept()
      requires registry.workers == old(registry.workers)
      requires forall w :: w in registry.workers ==> registry.workers[w].Status() == old(registry.workers[w].Status())
      ensures registry.Slots() == old(registry.Slots())
    {
    }

    /** The status when the registry and its workers alone have changed. */
    twostate lemma RegistryChanged()
      requires old(Valid()) && registry.Valid() && unchanged(this)
      requires forall b :: b in builds ==> unchanged(builds[b].graph)
      requires forall b, x :: b in builds && x in builds[b].graph.tasks ==>
                 builds[b].graph.tasks[x].state == old(builds[b].graph.tasks[x].state)
      ensures Valid() && Status() == old(Status()).(workers := registry.Slots())
    {
      BuildsKept();
      forall b | b in builds
        ensures builds[b].id == b && builds[b].graph.Valid() && builds[b].graph.Ordered()
      {
        assert old(builds[b].graph.Valid());
        assert old(builds[b].graph.Ordered());
      }
      forall b, c | b in builds && c in builds && b != c
        ensures Apart(builds[b].graph.tasks, builds[c].graph.tasks)
      {
        assert old(Apart(builds[b].graph.tasks, builds[c].graph.tasks));
      }
    }

    lemma OnlyTask(b: string, x: string)
      requires Valid() && b in builds && x in builds[b].graph.tasks
      ensures forall c, y :: c in builds && y in builds[c].graph.tasks && !(c == b && y == x) ==>
                builds[c].graph.tasks[y] != builds[b].graph.tasks[x]
    {
      forall c, y | c in builds && y in builds[c].graph.tasks && !(c == b && y == x)
        ensures builds[c].graph.tasks[y] != builds[b].graph.tasks[x]
      {
        if c == b {
          assert builds[b].graph.Valid();
        } else {
          assert Apart(builds[b].graph.tasks, builds[c].graph.tasks);
        }
      }
    }

    /** The status, as the schedule of one task sees it. */
    lemma AboutReadyTask(b: string, task: Task)
      requires Valid() && b in builds && task.id in builds[b].graph.tasks && builds[b].graph.tasks[task.id] == task
      ensures var v := Status();
        && v.Valid() && v.Has(b, task.id) && v.State(b, task.id) == task.state
        && v.builds[b].shape.need[task.id] == task.need
    {
      forall c | c in builds
        ensures Fits(Builds()[c].shape, Builds()[c].states)
      {
        assert builds[c].graph.Valid();
      }
      assert builds[b].graph.Valid();
    }

    /** Moves one task, as the transition table allows. */
    method Advance(b: string, task: Task, target: TaskState, now: int)
      requires Valid() && b in builds && task.id in builds[b].graph.tasks && builds[b].graph.tasks[task.id] == task
      requires CanMove(task.state, target)
      modifies {task}
      ensures Valid() && task.state == target
      ensures Builds() == WithState(old(Builds()), b, task.id, target) && registry.Slots() == old(registry.Slots())
    {
      hide Valid, Builds, AllTasks, Graphs, Registry.Slots, CanMove;
      OnlyTask(b, task.id);
      var ok := task.TransitionTo(target, now);
      TaskWritten((b, task.id));
      SlotsKept();
      ValidKept();
    }

    method TakeCapacity(w: string, n: Need)
      requires Valid() && w in registry.workers && Accepts(registry.Slots()[w], n)
      modifies registry.workers.Values
      ensures Valid() && Builds() == old(Builds())
      ensures registry.Slots() == var was := old(registry.Slots()); was[w := Reserve(was[w], n)]
      ensures var o := registry.workers[w];
        && o.availableCPU == old(o.availableCPU) - n.cpu && o.availableMemory == old(o.availableMemory) - n.memory
        && o.availableDisk == old(o.availableDisk) - n.disk && o.runningTasks == old(o.runningTasks) + 1
    {
      hide Valid, Builds, AllTasks, Graphs, Registry.Slots, Registry.Valid, Reserve, Accepts;
      AboutRegistry();
      var reserved := registry.ReserveCapacity(w, n);
      assert reserved;
      BuildsKept();
      ValidKept();
    }

    method ReturnCapacity(w: string, n: Need)
      requires Valid() && w in registry.workers
      modifies registry.workers.Values
      ensures Valid() && Builds() == old(Builds())
      ensures registry.Slots() == var was := old(registry.Slots()); was[w := Release(was[w], n)]
      ensures var o := registry.workers[w];
        && o.availableCPU == (old(o.availableCPU) + n.cpu) % 0x1_0000_0000
        && o.availableMemory == (old(o.availableMemory) + n.memory) % 0x1_0000_0000
        && o.availableDisk == (old(o.availableDisk) + n.disk) % 0x1_0000_0000
        && o.runningTasks == (if old(o.runningTasks) == 0 then 0 else old(o.runningTasks) - 1)
    {
      hide Valid, Builds, AllTasks, Graphs, Registry.Slots, Registry.Valid, Release;
      AboutRegistry();
      registry.ReleaseCapacity(w, n);
      BuildsKept();
      ValidKept();
    }

    /** Reserves capacity and sends the task; the callback that tells the worker may fail. */
    method Send(b: string, task: Task, w: string, now: int) returns (sent: bool)
      requires Valid() && b in builds && task.id in builds[b].graph.tasks && builds[b].graph.tasks[task.id] == task
      requires task.state == Ready && w in registry.workers && Accepts(registry.Slots()[w], task.need)
      modifies registry.workers.Values, {task}
      ensures Builds() == WithState(old(Builds()), b, task.id, if sent then Running else Scheduled)
      ensures registry.Slots() == var was := old(registry.Slots());
                was[w := if sent then Reserve(was[w], task.need) else Release(Reserve(was[w], task.need), task.need)]
      ensures task.state == if sent then Running else Scheduled
      ensures var o, n := registry.workers[w], task.need;
        && o.availableCPU == old(o.availableCPU) - (if sent then n.cpu else 0)
        && o.availableMemory == old(o.availableMemory) - (if sent then n.memory else 0)
        && o.availableDisk == old(o.availableDisk) - (if sent then n.disk else 0)
        && o.runningTasks == old(o.runningTasks) + (if sent then 1 else 0)
    {
      hide Valid, Builds, AllTasks, Graphs, Registry.Slots, Reserve, Release, WithState, Accepts;
      TakeCapacity(w, task.need);
      Advance(b, task, Scheduled, now);
      sent := *;
      if sent {
        Advance(b, task, Running, now);
        WithStateTwice(old(Builds()), b, task.id, Scheduled, Running);
      } else {
        ReturnCapacity(w, task.need);
      }
    }

    /** Remembers which worker has the task, and that it took part in the build. */
    method RecordWorker(b: string, t: string, w: string)
      modifies this`taskWorker, this`buildWorkers
      ensures taskWorker == old(taskWorker)[t := w]
      ensures buildWorkers ==
                old(buildWorkers)[b := (if b in old(buildWorkers) then old(buildWorkers)[b] else {}) + {w}]
      ensures Builds() == old(Builds()) && registry.Slots() == old(registry.Slots())
    {
      taskWorker := taskWorker[t := w];
      buildWorkers := buildWorkers[b := (if b in buildWorkers then buildWorkers[b] else {}) + {w}];
      BuildsKept();
    }

    /** Sends the task and records where it went. */
    method Place(b: string, task: Task, w: string, now: int) returns (sent: bool)
      requires Valid() && b in builds && task.id in builds[b].graph.tasks && builds[b].graph.tasks[task.id] == task
      requires task.state == Ready && w in registry.workers && Accepts(registry.Slots()[w], task.need)
      modifies this`taskWorker, this`buildWorkers, registry.workers.Values, {task}
      ensures old(Status()).Valid() && Status() == Next(old(Status()), Dispatch(b, task.id, w, sent))
      ensures task.state == (if sent then Running else Scheduled) && taskWorker == old(taskWorker)[task.id := w]
      ensures buildWorkers ==
                old(buildWorkers)[b := (if b in old(buildWorkers) then old(buildWorkers)[b] else {}) + {w}]
      ensures var o, n := registry.workers[w], task.need;
        && o.availableCPU == old(o.availableCPU) - (if sent then n.cpu else 0)
        && o.availableMemory == old(o.availableMemory) - (if sent then n.memory else 0)
        && o.availableDisk == old(o.availableDisk) - (if sent then n.disk else 0)
        && o.runningTasks == old(o.runningTasks) + (if sent then 1 else 0)
    {
      hide WithState, Next, Status, Valid, View.Valid, Builds, AllTasks, Graphs, Registry.Slots, Reserve,
           Release, Accepts;
      AboutReadyTask(b, task);
      AboutRegistry();
      AboutStatus();
      sent := Send(b, task, w, now);
      RecordWorker(b, task.id, w);
      AboutStatus();
      DispatchedStatus(old(Status()), Status(), b, task.id, w, sent);
    }

    lemma FittingExists(n: Need, choice: Option<string>)
      ensures choice.Some? && BestFit(registry.Slots(), n, choice.value) ==>
                choice.value in registry.workers && Accepts(registry.Slots()[choice.value], n)
    {
    }

    /** Tries to hand one Ready task to a worker. */
    method Try(b: string, task: Task, now: int) returns (choice: Option<string>, sent: bool)
      requires Valid() && b in builds && task.id in builds[b].graph.tasks && builds[b].graph.tasks[task.id] == task
      requires task.state == Ready
      modifies this`taskWorker, this`buildWorkers, registry.workers.Values, {task}
      ensures old(Status()).Valid()
      ensures choice.None? ==> !sent && Status() == old(Status()) && NoneAccepts(old(Status()).workers, task.need)
      ensures choice.Some? ==> var a := Dispatch(b, task.id, choice.value, sent);
                Permitted(old(Status()), a) && Status() == Next(old(Status()), a)
      ensures choice.None? ==> task.state == Ready && taskWorker == old(taskWorker)
      ensures choice.Some? ==> var w := choice.value;
        && w in registry.workers && old(registry.workers[w].CanAcceptTask(task.need))
        && task.state == (if sent then Running else Scheduled) && taskWorker == old(taskWorker)[task.id := w]
        && buildWorkers == old(buildWorkers)[b := (if b in old(buildWorkers) then old(buildWorkers)[b] else {}) + {w}]
        && var o, n := registry.workers[w], task.need;
           && o.availableCPU == old(o.availableCPU) - (if sent then n.cpu else 0)
           && o.availableMemory == old(o.availableMemory) - (if sent then n.memory else 0)
           && o.availableDisk == old(o.availableDisk) - (if sent then n.disk else 0)
           && o.runningTasks == old(o.runningTasks) + (if sent then 1 else 0)
    {
      hide Status, Valid, View.Valid, Builds, AllTasks, Graphs, Registry.Slots, Registry.Valid, Next, Permitted,
           BestFit, NoneAccepts;
      AboutReadyTask(b, task);
      AboutRegistry();
      AboutStatus();
      choice := PickWorker(task.need);
      BuildsKept();
      SlotsKept();
      ValidKept();
      AboutStatus();
      FittingExists(task.need, choice);
      if choice.None? {
        sent := false;
      } else {
        DispatchPermitted(old(Status()), b, task.id, choice.value);
        sent := Place(b, task, choice.value, now);
      }
    }

    /** As Try; no graph is touched. */
    method Assign(b: string, task: Task, now: int) returns (choice: Option<string>, sent: bool)
      requires Valid() && b in builds && task.id in builds[b].graph.tasks && builds[b].graph.tasks[task.id] == task
      requires task.state == Ready
      modifies this`taskWorker, this`buildWorkers, registry.workers.Values, {task}
      ensures SameGraphs() && old(Status()).Valid()
      ensures choice.None? ==> !sent && Status() == old(Status()) && NoneAccepts(old(Status()).workers, task.need)
      ensures choice.Some? ==> var a := Dispatch(b, task.id, choice.value, sent);
                Permitted(old(Status()), a) && Status() == Next(old(Status()), a)
    {
      hide Status, Valid, View.Valid, Next, Permitted, NoneAccepts, Builds, AllTasks, Graphs, Registry.Slots;
      choice, sent := Try(b, task, now);
    }

    // ----- one scheduling cycle -----

    /** Nothing but tasks, workers and the scheduler's own records has changed. */
    twostate predicate SameGraphs()
      reads this`builds, Graphs(), registry
    {
      && builds == old(builds) && registry.workers == old(registry.workers)
      && forall b :: b in builds ==> unchanged(builds[b].graph)
    }

    twostate lemma ValidKept()
      requires old(Valid()) && SameGraphs()
      ensures Valid()
    {
      forall b | b in builds
        ensures builds[b].id == b && builds[b].graph.Valid() && builds[b].graph.Ordered()
      {
        assert old(builds[b].graph.Valid());
        assert old(builds[b].graph.Ordered());
      }
      forall b, c | b in builds && c in builds && b != c
        ensures Apart(builds[b].graph.tasks, builds[c].graph.tasks)
      {
        assert old(Apart(builds[b].graph.tasks, builds[c].graph.tasks));
      }
    }

    /** The builds when only the tasks of one have changed state. */
    twostate lemma BuildWritten(b: string)
      requires builds == old(builds) && b in builds
      requires forall c :: c in builds ==>
                 && builds[c].graph.shape == old(builds[c].graph.shape)
                 && builds[c].graph.tasks == old(builds[c].graph.tasks)
      requires forall c, y :: c in builds && c != b && y in builds[c].graph.tasks ==>
                 builds[c].graph.tasks[y].state == old(builds[c].graph.tasks[y].state)
      ensures Builds() == old(Builds())[b := old(Builds())[b].(states := builds[b].graph.States())]
    {
      var was := old(Builds())[b := old(Builds())[b].(states := builds[b].graph.States())];
      forall c | c in builds
        ensures Builds()[c] == was[c]
      {
        assert Builds()[c].states == was[c].states;
      }
    }

    /** Writing to the tasks of one build leaves those of the others alone. */
    lemma OtherBuilds(b: string)
      requires Valid() && b in builds
      ensures forall c, y :: c in builds && c != b && y in builds[c].graph.tasks ==>
                builds[c].graph.tasks[y] !in builds[b].graph.tasks.Values
    {
      forall c, y | c in builds && c != b && y in builds[c].graph.tasks
        ensures builds[c].graph.tasks[y] !in builds[b].graph.tasks.Values
      {
        assert Apart(builds[b].graph.tasks, builds[c].graph.tasks);
      }
    }

    lemma AboutBuild(b: string)
      requires Valid() && b in builds
      ensures Status().Valid() && b in Status().builds && builds[b].graph.Valid()
      ensures Status().builds[b] == BuildView(builds[b].graph.shape, builds[b].graph.States())
    {
      forall c | c in builds
        ensures Fits(Builds()[c].shape, Builds()[c].states)
      {
        assert builds[c].graph.Valid();
      }
    }

    /** Promotes what can start in one build, and lists all that is Ready there. */
    method ScanBuild(b: string, now: int) returns (ready: seq<Task>)
      requires Valid() && b in builds
      modifies builds[b].graph.tasks.Values`state, {builds[b]}`startedAt
      ensures SameGraphs() && old(Status()).Valid() && Status() == Next(old(Status()), Scan(b))
      ensures Distinct(ready) && forall t: Task :: t in ready <==> t in builds[b].graph.tasks.Values && t.state == Ready
      ensures builds[b].startedAt ==
                if ready != [] && old(builds[b].startedAt).None? then Some(now) else old(builds[b].startedAt)
    {
      hide Status, Builds, AllTasks, Graphs, Registry.Slots, View.Valid, Next, Valid;
      ready := Promote(b);
      AboutStatus();
      if ready != [] {
        Begin(b, now);
        AboutStatus();
      }
    }

    method Begin(b: string, now: int)
      requires b in builds
      modifies {builds[b]}`startedAt
      ensures builds[b].startedAt == if old(builds[b].startedAt).None? then Some(now) else old(builds[b].startedAt)
      ensures Builds() == old(Builds()) && registry.Slots() == old(registry.Slots())
    {
      if builds[b].startedAt.None? {
        builds[b].startedAt := Some(now);
      }
      BuildsKept();
      SlotsKept();
    }

    method Promote(b: string) returns (ready: seq<Task>)
      requires Valid() && b in builds
      modifies builds[b].graph.tasks.Values`state
      ensures old(Status()).Valid() && Status() == Next(old(Status()), Scan(b))
      ensures Distinct(ready) && forall t: Task :: t in ready <==> t in builds[b].graph.tasks.Values && t.state == Ready
    {
      hide Status, Valid, View.Valid, Builds, AllTasks, Graphs, Registry.Slots, Graph.Valid, Graph.States,
           MarkReadyAll, Next;
      AboutStatus();
      AboutBuild(b);
      OtherBuilds(b);
      ready := builds[b].graph.MarkReady();
      BuildWritten(b);
      SlotsKept();
      AboutStatus();
      BuildStatus(old(Status()), Status(), b, builds[b].graph.States());
    }

    /** Tries to hand one Ready task to a worker, as the next step of a cycle. */
    method Offer(b: string, task: Task, now: int,
                 ghost start: View, ghost before: seq<Action>, ghost done: set<string>, ghost todo: seq<string>)
      returns (sent: bool, ghost run: seq<Action>)
      requires Valid() && b in builds && task.id in builds[b].graph.tasks && builds[b].graph.tasks[task.id] == task
      requires task.state == Ready && todo != [] && todo[0] == task.id
      requires start.Valid() && PermittedRun(start, before) && Status() == After(start, before)
      requires OnlyScheduling(before) && Served(Status(), done, b, todo)
      modifies this`taskWorker, this`buildWorkers, registry.workers.Values, {task}
      ensures Valid() && SameGraphs() && PermittedRun(start, run) && Status() == After(start, run)
      ensures Served(Status(), done, b, todo[1..])
      ensures OnlyScheduling(run) && Delivered(run) == Delivered(before) + (if sent then 1 else 0)
    {
      AboutReadyTask(b, task);
      ghost var v := Status();
      var choice;
      choice, sent := Assign(b, task, now);
      hide *;
      ValidKept();
      run := before;
      if choice.Some? {
        ghost var a := Dispatch(b, task.id, choice.value, sent);
        RunExtends(start, before, a);
        SchedulingExtends(before, a);
        DispatchServed(v, a, done, todo);
        run := before + [a];
      } else {
        RefusedServed(v, b, done, todo);
      }
    }

    /** Offers the Ready tasks of one build in turn, unless interrupted. */
    method ServeBuild(b: string, ready: seq<Task>, now: int,
                      ghost start: View, ghost before: seq<Action>, ghost done: set<string>)
      returns (count: nat, interrupted: bool, ghost run: seq<Action>)
      requires Valid() && b in builds && Distinct(ready)
      requires forall t: Task :: t in ready ==> t in builds[b].graph.tasks.Values && t.state == Ready
      requires start.Valid() && PermittedRun(start, before) && Status() == After(start, before)
      requires OnlyScheduling(before) && Served(Status(), done, b, IdsOf(ready))
      modifies this`taskWorker, this`buildWorkers, registry.workers.Values, builds[b].graph.tasks.Values
      ensures Valid() && SameGraphs() && PermittedRun(start, run) && Status() == After(start, run)
      ensures !interrupted ==> Served(Status(), done, b, [])
      ensures OnlyScheduling(run) && Delivered(run) == Delivered(before) + count
    {
      hide Status, Builds, AllTasks, Graphs, Registry.Slots, View.Valid, Valid, Served, Delivered,
           OnlyScheduling, PermittedRun, After, IdsOf;
      count, interrupted, run := 0, false, before;
      Listed(b, ready);
      for i := 0 to |ready|
        invariant Valid() && SameGraphs() && PermittedRun(start, run) && Status() == After(start, run)
        invariant Served(Status(), done, b, IdsOf(ready[i..]))
        invariant forall j :: i <= j < |ready| ==> ready[j].state == Ready
        invariant OnlyScheduling(run) && Delivered(run) == Delivered(before) + count
      {
        interrupted := *;
        if interrupted {
          return;
        }
        IdsTail(ready, i);
        var sent;
        sent, run := Offer(b, ready[i], now, start, run, done, IdsOf(ready[i..]));
        if sent {
          count := count + 1;
        }
      }
    }

    lemma Listed(b: string, ready: seq<Task>)
      requires Valid() && b in builds
      requires forall t: Task :: t in ready ==> t in builds[b].graph.tasks.Values
      ensures forall i :: 0 <= i < |ready| ==>
                ready[i].id in builds[b].graph.tasks && builds[b].graph.tasks[ready[i].id] == ready[i]
    {
      assert builds[b].graph.Valid() && forall i :: 0 <= i < |ready| ==> ready[i] in ready;
    }

    /** The Ready tasks that a scan has listed, by their ids. */
    lemma AllListed(b: string, ready: seq<Task>)
      requires Valid() && b in builds
      requires forall t: Task :: t in ready <==> t in builds[b].graph.tasks.Values && t.state == Ready
      ensures forall x :: x in Status().builds[b].states && Status().State(b, x) == Ready ==> x in IdsOf(ready)
    {
      assert builds[b].graph.Valid();
      forall x | x in builds[b].graph.tasks && builds[b].graph.tasks[x].state == Ready
        ensures x in IdsOf(ready)
      {
        var t := builds[b].graph.tasks[x];
        assert t in ready;
        var i :| 0 <= i < |ready| && ready[i] == t;
        assert IdsOf(ready)[i] == x;
      }
    }

    /** Scans one build and then offers what is Ready in it. */
    method ScheduleBuild(b: string, now: int, ghost start: View, ghost before: seq<Action>, ghost done: set<string>)
      returns (count: nat, interrupted: bool, ghost run: seq<Action>)
      requires Valid() && b in builds && b !in done
      requires start.Valid() && PermittedRun(start, before) && Status() == After(start, before)
      requires OnlyScheduling(before) && Served(Status(), done, "", [])
      modifies this`taskWorker, this`buildWorkers, registry.workers.Values
      modifies builds[b].graph.tasks.Values, {builds[b]}`startedAt
      ensures Valid() && SameGraphs() && PermittedRun(start, run) && Status() == After(start, run)
      ensures !interrupted ==> Served(Status(), done + {b}, "", [])
      ensures OnlyScheduling(run) && Delivered(run) == Delivered(before) + count
    {
      hide Status, Builds, AllTasks, Graphs, Registry.Slots, View.Valid, Valid, Served, Delivered,
           OnlyScheduling, PermittedRun, After, Next;
      ghost var v := Status();
      AboutBuild(b);
      var ready := ScanBuild(b, now);
      ValidKept();
      AboutBuild(b);
      AllListed(b, ready);
      RunExtends(start, before, Scan(b));
      SchedulingExtends(before, Scan(b));
      BuildServed(v, done, "", b);
      ScanServed(v, b, done, IdsOf(ready));
      count, interrupted, run := ServeBuild(b, ready, now, start, before + [Scan(b)], done + {b});
      if !interrupted {
        BuildServed(Status(), done + {b}, b, "");
      }
    }

    /** Schedules each build in turn, in any order. */
    method ScheduleAll(now: int, ghost start: View) returns (count: nat, interrupted: bool, ghost run: seq<Action>)
      requires Valid() && start == Status() && start.Valid()
      modifies this`taskWorker, this`buildWorkers, registry.workers.Values, AllTasks(), builds.Values`startedAt
      ensures Valid() && PermittedRun(start, run) && Status() == After(start, run)
      ensures OnlyScheduling(run) && count == Delivered(run)
      ensures !interrupted ==> Served(Status(), builds.Keys, "", [])
    {
      hide Split, Status, AllTasks, Graphs, Builds, Registry.Slots, View.Valid, Valid, Served, Delivered,
           OnlyScheduling, PermittedRun, After, Registry.Valid, Graph.Valid, Graph.States;
      TasksOfAll();
      count, interrupted, run := 0, false, [];
      NothingRun(start);
      var todo := builds.Keys;
      ghost var done: set<string> := {};
      SplitStart(todo);
      while todo != {}
        invariant Split(builds.Keys, done, todo)
        invariant Valid() && SameGraphs() && PermittedRun(start, run) && Status() == After(start, run)
        invariant !interrupted && Served(Status(), done, "", [])
        invariant OnlyScheduling(run) && count == Delivered(run)
      {
        var b :| b in todo;
        SplitPick(builds.Keys, done, todo, b);
        var n;
        n, interrupted, run := ScheduleBuild(b, now, start, run, done);
        count := count + n;
        if interrupted {
          return;
        }
        SplitMoves(builds.Keys, done, todo, b);
        todo, done := todo - {b}, done + {b};
      }
      SplitEnd(builds.Keys, done);
    }

    /** One cycle over all builds. When it is not interrupted, even if callbacks failed, no task is
        left that could be promoted, or that is Ready and fits a worker. */
    method Schedule(now: int) returns (count: nat, interrupted: bool, ghost run: seq<Action>)
      requires Valid()
      modifies this`taskWorker, this`buildWorkers, registry.workers.Values, AllTasks(), builds.Values`startedAt
      ensures Valid() && old(Status()).Valid()
      ensures PermittedRun(old(Status()), run) && Status() == After(old(Status()), run)
      ensures OnlyScheduling(run) && count == Delivered(run)
      ensures !interrupted ==> forall b :: b in builds ==> Promoted(Status(), b)
      ensures !interrupted ==> forall b, t :: Stuck(Status(), b, t)
      ensures !interrupted ==> forall b, x :: b in builds && x in builds[b].graph.tasks ==>
                var g, task := builds[b].graph, builds[b].graph.tasks[x];
                && (task.state == Ready ==>
                      forall w :: w in registry.workers ==> !registry.workers[w].CanAcceptTask(task.need))
                && (task.state == Pending ==>
                      x in g.deps && exists p :: p in g.deps[x] && p in g.tasks && g.tasks[p].state != Passed)
    {
      hide Status, AllTasks, Graphs, Builds, Registry.Slots, View.Valid, Valid, Served, Delivered,
           OnlyScheduling, PermittedRun, After;
      StatusValid();
      count, interrupted, run := ScheduleAll(now, Status());
      if !interrupted {
        AllServed();
        NothingLeft();
      }
    }

    lemma TasksOfAll()
      ensures forall b :: b in builds ==> builds[b].graph.tasks.Values <= AllTasks()
    {
    }

    /** What that means for the tasks and the workers themselves. */
    lemma NothingLeft()
      requires Valid() && Status().Valid()
      requires forall b :: b in builds ==> b in Status().builds && Promoted(Status(), b)
      requires forall b, t :: Stuck(Status(), b, t)
      ensures forall b, x :: b in builds && x in builds[b].graph.tasks ==>
                var g, task := builds[b].graph, builds[b].graph.tasks[x];
                && (task.state == Ready ==>
                      forall w :: w in registry.workers ==> !registry.workers[w].CanAcceptTask(task.need))
                && (task.state == Pending ==>
                      x in g.deps && exists p :: p in g.deps[x] && p in g.tasks && g.tasks[p].state != Passed)
    {
      forall b, x | b in builds && x in builds[b].graph.tasks
        ensures var task := builds[b].graph.tasks[x];
          && (task.state == Ready ==>
                forall w :: w in registry.workers ==> !registry.workers[w].CanAcceptTask(task.need))
          && (task.state == Pending ==> WaitsStill(b, x))
      {
        if builds[b].graph.tasks[x].state == Ready {
          TaskStuck(b, x);
        } else if builds[b].graph.tasks[x].state == Pending {
          TaskWaits(b, x);
        }
      }
    }

    lemma TaskStuck(b: string, x: string)
      requires Valid() && Status().Valid() && b in builds && x in builds[b].graph.tasks
      requires builds[b].graph.tasks[x].state == Ready && Stuck(Status(), b, x)
      ensures forall w :: w in registry.workers ==>
                !registry.workers[w].CanAcceptTask(builds[b].graph.tasks[x].need)
    {
      TaskAt(b, x);
      AboutReadyTask(b, builds[b].graph.tasks[x]);
      AboutStatus();
      hide Valid, Builds, Status, AllTasks, Graphs;
      forall w | w in registry.workers
        ensures !registry.workers[w].CanAcceptTask(builds[b].graph.tasks[x].need)
      {
        assert registry.Slots()[w] == registry.workers[w].Status();
      }
    }

    ghost predicate WaitsStill(b: string, x: string)
      requires b in builds
      reads this`builds, builds[b].graph, builds[b].graph.tasks.Values
    {
      var g := builds[b].graph;
      x in g.deps && exists p :: p in g.deps[x] && p in g.tasks && g.tasks[p].state != Passed
    }

    lemma TaskWaits(b: string, x: string)
      requires Valid() && Status().Valid() && b in builds && x in builds[b].graph.tasks
      requires builds[b].graph.tasks[x].state == Pending && b in Status().builds && Promoted(Status(), b)
      ensures WaitsStill(b, x)
    {
      AboutBuild(b);
      var g := builds[b].graph;
      g.AboutDeps(x);
      g.StateOf(x);
      hide Valid, Builds, Status, AllTasks, Graphs, Graph.Valid, Graph.States;
      assert !AllDepsPassed(g.shape, g.States(), x);
    }

    lemma AllServed()
      requires Valid() && Status().Valid() && Served(Status(), builds.Keys, "", [])
      ensures forall b :: b in builds ==> b in Status().builds && Promoted(Status(), b)
      ensures forall b, t :: Stuck(Status(), b, t)
    {
      forall b, t
        ensures Stuck(Status(), b, t)
      {
        assert b in builds ==> Stuck(Status(), b, t);
      }
    }

    lemma StatusValid()
      requires Valid()
      ensures Status().Valid() && Status().builds.Keys == builds.Keys
    {
      forall c | c in builds
        ensures Fits(Builds()[c].shape, Builds()[c].states)
      {
        assert builds[c].graph.Valid();
      }
    }

    // ----- results -----

    /** Takes a task off its worker, if it has one, and gives back what it reserved there. */
    method Unmap(task: Task)
      requires Valid()
      modifies this`taskWorker, registry.workers.Values
      ensures SameGraphs() && taskWorker == old(taskWorker) - {task.id} && Builds() == old(Builds())
      ensures var was, w := old(registry.Slots()), old(taskWorker);
        registry.Slots() == if task.id in w && w[task.id] in was
          then was[w[task.id] := Release(was[w[task.id]], task.need)] else was
    {
      hide Valid, Builds, AllTasks, Graphs, Release, Registry.Valid, Registry.Slots;
      AboutRegistry();
      if task.id in taskWorker {
        registry.ReleaseCapacity(taskWorker[task.id], task.need);
        label released:
        taskWorker := taskWorker - {task.id};
        SlotsKept@released();
      } else {
        assert taskWorker == taskWorker - {task.id};
      }
      BuildsKept();
    }

    /** Gives back what a task has reserved, if it is mapped to a worker. */
    method GiveBack(b: string, task: Task)
      requires Valid() && b in builds && task.id in builds[b].graph.tasks && builds[b].graph.tasks[task.id] == task
      modifies this`taskWorker, registry.workers.Values
      ensures SameGraphs() && old(Status()).Valid()
      ensures Status() == Next(old(Status()), Return(b, task.id))
      ensures taskWorker == old(taskWorker) - {task.id}
    {
      hide Status, Valid, View.Valid, Builds, AllTasks, Graphs, Registry.Slots, Next, Release, SameGraphs;
      AboutReadyTask(b, task);
      AboutStatus();
      Unmap(task);
      AboutStatus();
      ReturnedStatus(old(Status()), Status(), b, task.id);
    }

    /** Completes a task in its graph, if it is there. */
    method FinishTask(b: string, t: string, outcome: TaskState, exitCode: int, message: string, now: int)
      returns (ok: bool, ghost order: seq<string>)
      requires Valid() && b in builds
      modifies builds[b].graph.tasks.Values
      ensures SameGraphs() && old(Status()).Valid()
      ensures t in builds[b].graph.edges ==> IsListing(order, builds[b].graph.edges[t])
      ensures ok == (t in builds[b].graph.tasks && CanMove(old(builds[b].graph.tasks[t].state), outcome))
      ensures ok ==> var task := builds[b].graph.tasks[t];
        task.exitCode == exitCode && task.errorMessage == message && (outcome.IsTerminal() ==> task.state == outcome)
      ensures Status() == Next(old(Status()), Report(b, t, outcome, order))
    {
      hide Status, Valid, View.Valid, Builds, AllTasks, Graphs, Registry.Slots, Graph.Valid, Graph.States,
           Finish, Next;
      AboutStatus();
      AboutBuild(b);
      OtherBuilds(b);
      builds[b].graph.FitsNow();
      builds[b].graph.StateOf(t);
      var ready, err;
      ghost var ids;
      ready, err, order, ids := builds[b].graph.Complete(t, outcome, exitCode, message, now);
      BuildWritten(b);
      SlotsKept();
      AboutStatus();
      BuildStatus(old(Status()), Status(), b, builds[b].graph.States());
      ok := err.None?;
    }

    /** A worker's report: its capacity is given back, even if the graph then refuses the
        outcome. The completion says whether the build passed, once every task is finished. */
    method HandleTaskResult(b: string, t: string, outcome: TaskState, exitCode: int, message: string, now: int)
      returns (completion: Option<bool>, err: Option<ReportError>, ghost order: seq<string>)
      requires Valid()
      modifies this`taskWorker, registry.workers.Values, AllTasks(), builds.Values`finishedAt
      ensures Valid() && old(Status()).Valid()
      ensures err == if b !in builds then Some(BuildNotFound)
                     else if t !in builds[b].graph.tasks then Some(UnknownTask)
                     else if !CanMove(old(builds[b].graph.tasks[t].state), outcome) then Some(Refused) else None
      ensures var run := ReportRun(old(Status()), b, t, outcome, order);
        Status() == After(old(Status()), run) && (Reportable(outcome) ==> PermittedRun(old(Status()), run))
      ensures err.Some? ==> completion.None?
      ensures err.None? ==> var tasks := builds[b].graph.tasks;
        && (completion.Some? <==> forall x :: x in tasks ==> tasks[x].state.IsTerminal())
        && (completion.Some? ==> (completion.value <==> forall x :: x in tasks ==> tasks[x].state == Passed))
        && builds[b].finishedAt == (if completion.Some? then Some(now) else old(builds[b].finishedAt))
        && tasks[t].exitCode == exitCode && tasks[t].errorMessage == message
        && (outcome.IsTerminal() ==> tasks[t].state == outcome)
      ensures taskWorker == if b in builds && t in builds[b].graph.tasks then old(taskWorker) - {t} else old(taskWorker)
    {
      hide Status, Valid, View.Valid, Builds, AllTasks, Graphs, Registry.Slots, Registry.Valid, Graph.Valid, CanMove,
           ReportRun, After, PermittedRun;
      StatusValid();
      NothingRun(Status());
      if !(b in builds && t in builds[b].graph.tasks) {
        NoReport(b, t, outcome);
      }
      TasksOfAll();
      if b !in builds {
        return None, Some(BuildNotFound), [];
      }
      if t !in builds[b].graph.tasks {
        return None, Some(UnknownTask), [];
      }
      var ok;
      completion, ok, order := Respond(b, t, outcome, exitCode, message, now);
      err := if ok then None else Some(Refused);
    }

    /** The same for a task that exists. */
    method Respond(b: string, t: string, outcome: TaskState, exitCode: int, message: string, now: int)
      returns (completion: Option<bool>, ok: bool, ghost order: seq<string>)
      requires Valid() && b in builds && t in builds[b].graph.tasks
      modifies this`taskWorker, registry.workers.Values, builds[b].graph.tasks.Values, {builds[b]}`finishedAt
      ensures Valid() && old(Status()).Valid()
      ensures ok == CanMove(old(builds[b].graph.tasks[t].state), outcome)
      ensures var run := ReportRun(old(Status()), b, t, outcome, order);
        Status() == After(old(Status()), run) && (Reportable(outcome) ==> PermittedRun(old(Status()), run))
      ensures !ok ==> completion.None?
      ensures ok ==> var tasks := builds[b].graph.tasks;
        && (completion.Some? <==> forall x :: x in tasks ==> tasks[x].state.IsTerminal())
        && (completion.Some? ==> (completion.value <==> forall x :: x in tasks ==> tasks[x].state == Passed))
        && builds[b].finishedAt == (if completion.Some? then Some(now) else old(builds[b].finishedAt))
        && tasks[t].exitCode == exitCode && tasks[t].errorMessage == message
        && (outcome.IsTerminal() ==> tasks[t].state == outcome)
      ensures taskWorker == old(taskWorker) - {t}
    {
      hide Status, Valid, View.Valid, Builds, AllTasks, Graphs, Registry.Slots, Registry.Valid, Graph.Valid, CanMove,
           ReportRun, After, PermittedRun;
      completion := None;
      ok, order := Settle(b, t, outcome, exitCode, message, now);
      if ok {
        completion := Conclude(b, now);
      }
    }

    lemma NoReport(b: string, t: string, outcome: TaskState)
      requires Valid() && Status().Valid() && !(b in builds && t in builds[b].graph.tasks)
      ensures ReportRun(Status(), b, t, outcome, []) == []
    {
    }

    /** The two steps of a report for a task that exists. */
    method Settle(b: string, t: string, outcome: TaskState, exitCode: int, message: string, now: int)
      returns (ok: bool, ghost order: seq<string>)
      requires Valid() && b in builds && t in builds[b].graph.tasks
      modifies this`taskWorker, registry.workers.Values, builds[b].graph.tasks.Values
      ensures Valid() && SameGraphs() && old(Status()).Valid()
      ensures ok == CanMove(old(builds[b].graph.tasks[t].state), outcome)
      ensures taskWorker == old(taskWorker) - {t}
      ensures ok ==> var task := builds[b].graph.tasks[t];
        task.exitCode == exitCode && task.errorMessage == message && (outcome.IsTerminal() ==> task.state == outcome)
      ensures var run := ReportRun(old(Status()), b, t, outcome, order);
        Status() == After(old(Status()), run) && (Reportable(outcome) ==> PermittedRun(old(Status()), run))
    {
      hide Status, Valid, View.Valid, Builds, AllTasks, Graphs, Registry.Slots, Graph.Valid, Graph.States, Next,
           IsListing;
      AboutBuild(b);
      builds[b].graph.StateOf(t);
      builds[b].graph.FitsNow();
      TaskAt(b, t);
      GiveBack(b, builds[b].graph.tasks[t]);
      ValidKept();
      ok, order := FinishTask(b, t, outcome, exitCode, message, now);
      ValidKept();
      ReportIsRun(old(Status()), b, t, outcome, order);
    }

    /** If every task is finished, so is the build. */
    method Conclude(b: string, now: int) returns (completion: Option<bool>)
      requires Valid() && b in builds
      modifies {builds[b]}`finishedAt
      ensures Valid() && Status() == old(Status())
      ensures var tasks := builds[b].graph.tasks;
        && (completion.Some? <==> forall x :: x in tasks ==> tasks[x].state.IsTerminal())
        && (completion.Some? ==> (completion.value <==> forall x :: x in tasks ==> tasks[x].state == Passed))
      ensures builds[b].finishedAt == if completion.Some? then Some(now) else old(builds[b].finishedAt)
    {
      completion := None;
      hide Status, Valid, View.Valid, Builds, AllTasks, Graphs, Registry.Slots;
      var complete := IsDone(b);
      if complete {
        Close(b, now);
        var passed := HasPassed(b);
        completion := Some(passed);
      }
    }

    method IsDone(b: string) returns (done: bool)
      requires Valid() && b in builds
      ensures Valid() && Status() == old(Status())
      ensures done <==>
                forall x :: x in builds[b].graph.tasks ==> builds[b].graph.tasks[x].state.IsTerminal()
    {
      assert builds[b].graph.Valid();
      done := builds[b].graph.IsComplete();
      Untouched();
    }

    method HasPassed(b: string) returns (passed: bool)
      requires Valid() && b in builds
      ensures Valid() && Status() == old(Status())
      ensures passed <==>
                forall x :: x in builds[b].graph.tasks ==> builds[b].graph.tasks[x].state == Passed
    {
      assert builds[b].graph.Valid();
      passed := builds[b].graph.IsPassed();
      Untouched();
    }

    /** Reading changes nothing. */
    twostate lemma Untouched()
      requires old(Valid()) && unchanged(this) && SameGraphs()
      requires forall b, x :: b in builds && x in builds[b].graph.tasks ==>
                 builds[b].graph.tasks[x].state == old(builds[b].graph.tasks[x].state)
      requires forall w :: w in registry.workers ==> registry.workers[w].Status() == old(registry.workers[w].Status())
      ensures Valid() && Status() == old(Status())
    {
      BuildsKept();
      SlotsKept();
      ValidKept();
    }

    method Close(b: string, now: int)
      requires Valid() && b in builds
      modifies {builds[b]}`finishedAt
      ensures builds[b].finishedAt == Some(now)
      ensures Valid() && SameGraphs() && Status() == old(Status())
    {
      builds[b].finishedAt := Some(now);
      Untouched();
    }

    // ----- cancelling a build -----

    lemma TaskAt(b: string, x: string)
      requires Valid() && b in builds && x in builds[b].graph.tasks
      ensures builds[b].graph.tasks[x].id == x
    {
      assert builds[b].graph.Valid();
    }

    /** Takes every task of a build off its worker. */
    method GiveBackAll(b: string) returns (ghost order: seq<string>)
      requires Valid() && b in builds
      modifies this`taskWorker, registry.workers.Values
      ensures Valid() && SameGraphs() && old(Status()).Valid()
      ensures IsListing(order, builds[b].graph.tasks.Keys)
      ensures forall x :: x in builds[b].graph.tasks ==> x !in taskWorker
      ensures taskWorker == old(taskWorker) - builds[b].graph.tasks.Keys
      ensures PermittedRun(old(Status()), Returns(b, order)) && Status() == After(old(Status()), Returns(b, order))
    {
      hide Split, IsListing, Status, Valid, View.Valid, Builds, AllTasks, Graphs, Registry.Slots, PermittedRun,
           After, Returns;
      StatusValid();
      ghost var v := Status();
      NothingRun(v);
      NothingReturned(b);
      order := [];
      var todo := builds[b].graph.tasks.Keys;
      ghost var all, done: set<string> := todo, {};
      SplitStart(todo);
      while todo != {}
        invariant Split(all, done, todo) && IsListing(order, done)
        invariant Valid() && SameGraphs() && taskWorker == old(taskWorker) - done
        invariant PermittedRun(v, Returns(b, order)) && Status() == After(v, Returns(b, order))
      {
        var x :| x in todo;
        SplitPick(all, done, todo, x);
        TaskAt(b, x);
        AboutBuild(b);
        ReturnsExtend(v, Status(), b, order, x);
        GiveBack(b, builds[b].graph.tasks[x]);
        ValidKept();
        ListingExtends(order, done, x);
        SplitMoves(all, done, todo, x);
        WithoutOneMore(old(taskWorker), done, x);
        order := order + [x];
        todo, done := todo - {x}, done + {x};
      }
      SplitEnd(all, done);
    }

    /** Marks every unfinished task of a build as cancelled. */
    method CancelGraph(b: string)
      requires Valid() && b in builds
      modifies builds[b].graph.tasks.Values`state
      ensures SameGraphs() && old(Status()).Valid()
      ensures Status() == Next(old(Status()), CancelBuild(b))
      ensures forall x :: x in builds[b].graph.tasks ==> var task := builds[b].graph.tasks[x];
                task.state == if old(task.state).IsTerminal() then old(task.state) else Cancelled
    {
      hide Status, Valid, View.Valid, Builds, AllTasks, Graphs, Registry.Slots, Graph.Valid, Graph.States,
           CancelAll, Next;
      AboutStatus();
      AboutBuild(b);
      OtherBuilds(b);
      builds[b].graph.Cancel();
      BuildWritten(b);
      SlotsKept();
      AboutStatus();
      BuildStatus(old(Status()), Status(), b, builds[b].graph.States());
    }

    lemma BuildIdle(b: string)
      requires Valid() && b in builds && forall t :: t in builds[b].graph.tasks ==> t !in taskWorker
      ensures Status().Valid() && Permitted(Status(), CancelBuild(b))
    {
      AboutBuild(b);
      assert Status().builds[b].states.Keys == builds[b].graph.tasks.Keys;
    }

    method Cancel(b: string, now: int) returns (found: bool, ghost order: seq<string>)
      requires Valid()
      modifies this`taskWorker, registry.workers.Values, AllTasks(), builds.Values`finishedAt
      ensures Valid() && old(Status()).Valid()
      ensures found == (b in builds)
      ensures !found ==> Status() == old(Status())
      ensures found ==>
        && IsListing(order, builds[b].graph.tasks.Keys) && builds[b].finishedAt == Some(now)
        && PermittedRun(old(Status()), CancelRun(b, order)) && Status() == After(old(Status()), CancelRun(b, order))
      ensures found ==> var tasks := builds[b].graph.tasks;
        && taskWorker == old(taskWorker) - tasks.Keys
        && forall x :: x in tasks ==>
             tasks[x].state == if old(tasks[x].state).IsTerminal() then old(tasks[x].state) else Cancelled
    {
      hide Status, Valid, View.Valid, Builds, AllTasks, Graphs, Registry.Slots, Registry.Valid, PermittedRun, After,
           CancelRun;
      StatusValid();
      TasksOfAll();
      found, order := b in builds, [];
      if found {
        order := CancelFound(b, now);
      }
    }

    /** The same for a build that exists. */
    method CancelFound(b: string, now: int) returns (ghost order: seq<string>)
      requires Valid() && b in builds
      modifies this`taskWorker, registry.workers.Values, builds[b].graph.tasks.Values`state, {builds[b]}`finishedAt
      ensures Valid() && old(Status()).Valid()
      ensures IsListing(order, builds[b].graph.tasks.Keys) && builds[b].finishedAt == Some(now)
      ensures PermittedRun(old(Status()), CancelRun(b, order)) && Status() == After(old(Status()), CancelRun(b, order))
      ensures var tasks := builds[b].graph.tasks;
        && taskWorker == old(taskWorker) - tasks.Keys
        && forall x :: x in tasks ==>
             tasks[x].state == if old(tasks[x].state).IsTerminal() then old(tasks[x].state) else Cancelled
    {
      hide Status, Valid, View.Valid, Builds, AllTasks, Graphs, Registry.Slots, Registry.Valid, PermittedRun, After,
           Returns, Next;
      ghost var v := Status();
      order := GiveBackAll(b);
      BuildIdle(b);
      CancelGraph(b);
      ValidKept();
      RunExtends(v, Returns(b, order), CancelBuild(b));
      Close(b, now);
    }

    // ----- submitting a build -----

    /** Records the build of every task of a graph. */
    method IndexTasks(ids: set<string>, b: string)
      requires Valid()
      modifies this`taskBuild
      ensures Valid() && taskBuild == old(taskBuild) + map t | t in ids :: b
      ensures Builds() == old(Builds()) && registry.Slots() == old(registry.Slots())
    {
      hide Builds, AllTasks, Graphs, Registry.Slots;
      var todo := ids;
      ghost var was := taskBuild;
      while todo != {}
        invariant todo <= ids && taskBuild == was + map t | t in ids - todo :: b
      {
        var t :| t in todo;
        taskBuild := taskBuild[t := b];
        todo := todo - {t};
      }
      BuildsKept();
      SlotsKept();
      ValidKept();
    }

    twostate lemma FiledValid(build: Build)
      requires old(Valid()) && build.graph.Valid() && build.graph.Ordered() && build.id !in old(builds)
      requires forall b :: b in old(builds) ==> Apart(old(builds)[b].graph.tasks, build.graph.tasks)
      requires builds == old(builds)[build.id := build]
      requires unchanged(registry) && forall b :: b in builds ==> unchanged(builds[b].graph)
      ensures Valid()
    {
      assert old(registry.Valid());
      forall b | b in builds
        ensures builds[b].id == b && builds[b].graph.Valid() && builds[b].graph.Ordered()
      {
        if b != build.id {
          assert old(builds[b].graph.Valid());
          assert old(builds[b].graph.Ordered());
        }
      }
      forall b, c | b in builds && c in builds && b != c
        ensures Apart(builds[b].graph.tasks, builds[c].graph.tasks)
      {
        if b != build.id && c != build.id {
          assert old(Apart(builds[b].graph.tasks, builds[c].graph.tasks));
        } else if b == build.id {
          assert Apart(builds[c].graph.tasks, build.graph.tasks);
        }
      }
    }

    twostate lemma FiledBuilds(build: Build)
      requires build.id !in old(builds) && builds == old(builds)[build.id := build]
      requires forall b :: b in old(builds) ==> unchanged(old(builds)[b].graph)
      requires forall b, x :: b in old(builds) && x in old(builds)[b].graph.tasks ==>
                 old(builds)[b].graph.tasks[x].state == old(builds[b].graph.tasks[x].state)
      ensures Builds() == old(Builds())[build.id := BuildView(build.graph.shape, build.graph.States())]
    {
      var was := old(Builds())[build.id := BuildView(build.graph.shape, build.graph.States())];
      forall c | c in builds
        ensures Builds()[c] == was[c]
      {
        assert Builds()[c].states == was[c].states;
      }
    }

    /** Files a build. */
    method File(build: Build, now: int)
      requires Valid() && build.graph.Valid() && build.graph.Ordered() && build.id !in builds
      requires forall b :: b in builds ==> Apart(builds[b].graph.tasks, build.graph.tasks)
      modifies this`builds, build`createdAt
      ensures Valid() && builds == old(builds)[build.id := build] && build.createdAt == Some(now)
      ensures Builds() == old(Builds())[build.id := BuildView(old(build.graph.shape), old(build.graph.States()))]
      ensures registry.Slots() == old(registry.Slots())
    {
      hide *;
      build.createdAt := Some(now);
      builds := builds[build.id := build];
      FiledValid(build);
      FiledBuilds(build);
      SlotsKept();
    }

    /** Adds a build whose graph has been built and validated. */
    method Add(build: Build, now: int)
      requires Valid() && build.graph.Valid() && build.graph.Ordered() && build.id !in builds
      requires forall b :: b in builds ==> Apart(builds[b].graph.tasks, build.graph.tasks)
      modifies this`builds, this`taskBuild, build`createdAt
      ensures Valid() && old(Status()).Valid()
      ensures Status() == Next(old(Status()), Submit(build.id, old(BuildView(build.graph.shape, build.graph.States()))))
      ensures builds == old(builds)[build.id := build] && build.createdAt == Some(now)
      ensures taskBuild == old(taskBuild) + map t | t in build.graph.tasks :: build.id
    {
      hide Status, Valid, View.Valid, Builds, AllTasks, Graphs, Registry.Slots, Graph.Valid, Graph.Ordered,
           Graph.States, Next, Apart;
      StatusValid();
      AboutStatus();
      build.graph.FitsNow();
      ghost var v, view := Status(), BuildView(build.graph.shape, build.graph.States());
      File(build, now);
      IndexTasks(build.graph.tasks.Keys, build.id);
      ghost var u := Status();
      AboutStatus();
      SubmitStatus(v, u, build.id, view);
    }

    /** The same, refusing an id that is in use. The graph must have been validated; the action is
        one that runs permit if no task of it has been started. */
    method SubmitBuild(build: Build, now: int) returns (ok: bool)
      requires Valid() && build.graph.Valid() && Topological(build.graph.shape, build.graph.order)
      requires forall b :: b in builds ==> Apart(builds[b].graph.tasks, build.graph.tasks)
      modifies this`builds, this`taskBuild, build`createdAt
      ensures Valid() && old(Status()).Valid() && ok == (build.id !in old(builds))
      ensures var view := old(BuildView(build.graph.shape, build.graph.States()));
        && Status() == Next(old(Status()), Submit(build.id, view))
        && (view.states == Initial(view.shape) ==> Permitted(old(Status()), Submit(build.id, view)))
      ensures ok ==> builds == old(builds)[build.id := build] && build.createdAt == Some(now)
      ensures ok ==> taskBuild == old(taskBuild) + map t | t in build.graph.tasks :: build.id
      ensures !ok ==> unchanged(build) && builds == old(builds) && taskBuild == old(taskBuild)
    {
      hide Valid, View.Valid, Builds, AllTasks, Graphs, Registry.Slots, Initial, Permitted, Topological;
      StatusValid();
      ghost var view := BuildView(build.graph.shape, build.graph.States());
      if view.states == Initial(view.shape) {
        SubmitPermitted(Status(), build.id, view, build.graph.order);
      }
      if build.id in builds {
        return false;
      }
      Add(build, now);
      ok := true;
    }

    // ----- a worker dies -----

    /** Fails one task of a dead worker and drops it from the records; its capacity is lost. */
    method LoseTask(b: string, t: string, w: string, now: int) returns (ghost order: seq<string>)
      requires Valid() && b in builds
      modifies this`taskWorker, builds[b].graph.tasks.Values
      ensures Valid() && SameGraphs() && old(Status()).Valid()
      ensures t in builds[b].graph.edges ==> IsListing(order, builds[b].graph.edges[t])
      ensures taskWorker == old(taskWorker) - {t}
      ensures t in builds[b].graph.tasks && CanMove(old(builds[b].graph.tasks[t].state), Failed) ==>
                var task := builds[b].graph.tasks[t];
                task.state == Failed && task.exitCode == -1 && task.errorMessage == "worker died: " + w
      ensures Status() == Next(old(Status()), Report(b, t, Failed, order)).(taskWorker := taskWorker)
    {
      hide Status, Valid, View.Valid, Builds, AllTasks, Graphs, Registry.Slots, Next, IsListing;
      var ok;
      ok, order := FinishTask(b, t, Failed, -1, "worker died: " + w, now);
      ValidKept();
      AboutStatus();
      Drop(t);
      AboutStatus();
    }

    method Drop(t: string)
      requires Valid()
      modifies this`taskWorker
      ensures Valid() && taskWorker == old(taskWorker) - {t}
      ensures Builds() == old(Builds()) && registry.Slots() == old(registry.Slots())
    {
      hide Builds, AllTasks, Graphs, Registry.Slots;
      taskWorker := taskWorker - {t};
      BuildsKept();
      SlotsKept();
      ValidKept();
    }

    /** The same, as the next step of the run of losses. */
    method LoseNext(b: string, t: string, w: string, now: int,
                    ghost v: View, ghost lost: seq<string>, ghost orders: seq<seq<string>>)
      returns (ghost order: seq<string>)
      requires Valid() && b in builds && v.Valid() && b == OwnerOf(v, t) && |orders| == |lost|
      requires PermittedRun(v, Losses(v, lost, orders)) && Status() == After(v, Losses(v, lost, orders))
      modifies this`taskWorker, builds[b].graph.tasks.Values
      ensures Valid() && SameGraphs() && taskWorker == old(taskWorker) - {t}
      ensures var run := Losses(v, lost + [t], orders + [order]);
        PermittedRun(v, run) && Status() == After(v, run)
    {
      hide Status, Valid, View.Valid, Builds, AllTasks, Graphs, Registry.Slots, PermittedRun, After, Losses,
           Next, IsListing, OwnerOf, Graph.Valid;
      AboutBuild(b);
      AboutStatus();
      builds[b].graph.FitsNow();
      ghost var u := Status();
      order := LoseTask(b, t, w, now);
      LossExtends(v, u, lost, orders, t, order);
    }

    method LoseAll(w: string, now: int, ghost v: View) returns (ghost lost: seq<string>, ghost orders: seq<seq<string>>)
      requires Valid() && v == Status() && v.Valid() && v.builds.Keys == builds.Keys
      requires v.taskWorker == taskWorker && v.taskBuild == taskBuild
      modifies this`taskWorker, AllTasks()
      ensures Valid() && PartlyLost(v, w, {}, lost, taskWorker) && |orders| == |lost|
      ensures PermittedRun(v, Losses(v, lost, orders)) && Status() == After(v, Losses(v, lost, orders))
    {
      hide LostWith, PartlyLost, Status, Valid, View.Valid, Builds, AllTasks, Graphs, Registry.Slots,
           PermittedRun, After, Losses, Next, IsListing;
      TasksOfAll();
      NothingRun(v);
      lost, orders := [], [];
      NothingLostYet(v);
      var todo := taskWorker.Keys;
      LostStart(v, w);
      while todo != {}
        invariant Valid() && SameGraphs() && |orders| == |lost|
        invariant PartlyLost(v, w, todo, lost, taskWorker)
        invariant PermittedRun(v, Losses(v, lost, orders)) && Status() == After(v, Losses(v, lost, orders))
      {
        var t :| t in todo;
        LostStep(v, w, todo, lost, taskWorker, t);
        var b := if t in taskBuild then taskBuild[t] else "";
        LostIff(v, w, t);
        if taskWorker[t] == w && b in builds {
          ghost var order := LoseNext(b, t, w, now, v, lost, orders);
          lost, orders := lost + [t], orders + [order];
        }
        todo := todo - {t};
      }
    }

    /** Fails the tasks of a dead worker, in any order, as far as their builds are known. */
    method HandleDeadWorker(w: string, now: int) returns (ghost lost: seq<string>, ghost orders: seq<seq<string>>)
      requires Valid()
      modifies this`taskWorker, AllTasks()
      ensures Valid() && old(Status()).Valid()
      ensures IsListing(lost, LostWith(old(Status()), w)) && |orders| == |lost|
      ensures var run := Losses(old(Status()), lost, orders);
        PermittedRun(old(Status()), run) && Status() == After(old(Status()), run)
      ensures taskWorker == old(taskWorker) - LostWith(old(Status()), w)
      ensures forall t :: t in lost <==>
                && t in old(taskWorker) && old(taskWorker)[t] == w
                && (if t in taskBuild then taskBuild[t] else "") in builds
      ensures taskWorker == map t | t in old(taskWorker) && t !in lost :: old(taskWorker)[t]
    {
      hide LostWith, PartlyLost, Status, Valid, View.Valid, Builds, AllTasks, Graphs, Registry.Slots,
           PermittedRun, After, Losses;
      StatusValid();
      AboutStatus();
      lost, orders := LoseAll(w, now, Status());
      LostEnd(old(Status()), w, lost, taskWorker);
      LostAre(old(Status()), w, lost);
    }
  }
}
