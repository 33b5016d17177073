/** The scheduler as a state machine over values (pkg/scheduler/scheduler.go). Each exported
    method of Scheduler and Registry is a short sequence of the events below. */
module SchedulerSpec {
  import opened Tasks
  import opened GraphSpec
  import opened Workers
  import Cycles

  datatype BuildView = BuildView(shape: Shape, states: States)

  datatype View = View(
    builds: map<string, BuildView>,
    workers: map<string, Slot>,
    taskWorker: map<string, string>,         // task -> the worker it was sent to
    taskBuild: map<string, string>,          // task -> its build
    buildWorkers: map<string, set<string>>)  // build -> the workers that took part
  {
    ghost predicate Valid() {
      forall b :: b in builds ==> Fits(builds[b].shape, builds[b].states)
    }

    /** The task exists in that build. */
    predicate Has(b: string, t: string) {
      b in builds && t in builds[b].states
    }

    function State(b: string, t: string): TaskState
      requires Has(b, t)
    {
      builds[b].states[t]
    }

    /** The same builds, but for the states of one. */
    function WithStates(b: string, s: States): View
      requires b in builds
    {
      this.(builds := builds[b := builds[b].(states := s)])
    }

    function WithSlot(w: string, slot: Slot): View {
      this.(workers := workers[w := slot])
    }
  }

  datatype Action =
    | Submit(build: string, view: BuildView)
    | Scan(build: string)                                       // Graph.MarkReady
    | Dispatch(build: string, task: string, worker: string, delivered: bool)
    | Return(build: string, task: string)                       // capacity given back, mapping dropped
    | Forget(task: string)                                      // mapping dropped, capacity kept
    | Report(build: string, task: string, outcome: TaskState, order: seq<string>)
    | CancelBuild(build: string)
    | Register(worker: string, slot: Slot)
    | Unregister(worker: string)
    | Heartbeat(worker: string, cpu: uint32, memory: uint32, disk: uint32, running: uint32)
    | SetState(worker: string, state: WorkerState)              // drained, or declared dead

  /** A task is assigned: capacity is reserved, and given back at once if the callback fails,
      though the task then stays Scheduled and mapped to the worker. */
  ghost function Assigned(v: View, b: string, t: string, w: string, delivered: bool): View
    requires v.Valid() && v.Has(b, t) && w in v.workers
  {
    var n := v.builds[b].shape.need[t];
    var reserved := Reserve(v.workers[w], n);
    v.WithStates(b, v.builds[b].states[t := if delivered then Running else Scheduled])
     .WithSlot(w, if delivered then reserved else Release(reserved, n))
     .(taskWorker := v.taskWorker[t := w],
       buildWorkers := v.buildWorkers[b := (if b in v.buildWorkers then v.buildWorkers[b] else {}) + {w}])
  }

  ghost function Returned(v: View, b: string, t: string): View
    requires v.Valid() && v.Has(b, t)
  {
    if t !in v.taskWorker then v
    else
      var w := v.taskWorker[t];
      var u := v.(taskWorker := v.taskWorker - {t});
      if w in v.workers then u.WithSlot(w, Release(v.workers[w], v.builds[b].shape.need[t])) else u
  }

  ghost function Next(v: View, e: Action): (u: View)
    requires v.Valid()
  {
    match e
    case Submit(b, view) =>
      if b in v.builds then v
      else v.(builds := v.builds[b := view],
              taskBuild := v.taskBuild + map t | t in view.shape.Ids() :: b)
    case Scan(b) =>
      if b in v.builds then v.WithStates(b, MarkReadyAll(v.builds[b].shape, v.builds[b].states)) else v
    case Dispatch(b, t, w, delivered) =>
      if v.Has(b, t) && w in v.workers then Assigned(v, b, t, w, delivered) else v
    case Return(b, t) => if v.Has(b, t) then Returned(v, b, t) else v
    case Forget(t) => v.(taskWorker := v.taskWorker - {t})
    case Report(b, t, outcome, order) =>
      if b in v.builds then v.WithStates(b, Finish(v.builds[b].shape, v.builds[b].states, t, outcome, order)) else v
    case CancelBuild(b) =>
      if b in v.builds then v.WithStates(b, CancelAll(v.builds[b].states)) else v
    case Register(w, slot) => v.WithSlot(w, slot.(state := Active))
    case Unregister(w) => v.(workers := v.workers - {w})
    case Heartbeat(w, cpu, memory, disk, running) =>
      if w in v.workers then v.WithSlot(w, Beat(v.workers[w], cpu, memory, disk, running)) else v
    case SetState(w, state) =>
      if w in v.workers then v.WithSlot(w, v.workers[w].(state := state)) else v
  }

  /** What the code guarantees of an event at the moment it happens; for a submission, what is
      asked of the caller: a graph that is validated and has not been started. */
  ghost predicate Permitted(v: View, e: Action) {
    match e
    case Submit(b, view) =>
      view.shape.Valid() && !Cycles.Cyclic(view.shape) && view.states == Initial(view.shape)
    case Dispatch(b, t, w, delivered) =>
      v.Has(b, t) && v.Valid() && v.State(b, t) == Ready && BestFit(v.workers, v.builds[b].shape.need[t], w)
    case Return(b, t) => v.Has(b, t)
    case Report(b, t, outcome, order) =>
      && t !in v.taskWorker && b in v.builds
      && GraphSpec.Legal(v.builds[b].shape, Complete(t, outcome, order))
    case CancelBuild(b) =>
      b in v.builds && forall t :: t in v.builds[b].states ==> t !in v.taskWorker
    case _ => true
  }

  lemma NextValid(v: View, e: Action)
    requires v.Valid() && (e.Submit? ==> Fits(e.view.shape, e.view.states))
    ensures Next(v, e).Valid()
  {
    hide Finish, MarkReadyAll, CancelAll, Release, Reserve, Beat, Shape.Valid;
  }

  ghost predicate PermittedRun(v: View, run: seq<Action>)
    requires v.Valid()
    decreases |run|
  {
    run == [] ||
    var init := run[..|run| - 1];
    PermittedRun(v, init) && After(v, init).Valid() && Permitted(After(v, init), run[|run| - 1])
  }

  /** The state after a run; submissions of a malformed build are ignored. */
  ghost function After(v: View, run: seq<Action>): (u: View)
    requires v.Valid()
    ensures u.Valid()
    decreases |run|
  {
    if run == [] then v
    else
      var u := After(v, run[..|run| - 1]);
      var e := run[|run| - 1];
      if e.Submit? && !Fits(e.view.shape, e.view.states) then u
      else
        NextValid(u, e);
        Next(u, e)
  }

  /** The build brings only task ids that no earlier build has used. */
  ghost predicate FreshIds(v: View, e: Action) {
    e.Submit? && e.build !in v.builds ==> forall t :: t in e.view.shape.Ids() ==> t !in v.taskBuild
  }

  /** No two builds of the run share a task id. The code does not see to that, and most theorems
      do not need it; those about taskWorker and capacity do, because taskWorker and taskBuild
      are keyed by task id alone. */
  ghost predicate UniqueIds(v: View, run: seq<Action>)
    requires v.Valid()
    decreases |run|
  {
    run == [] || (UniqueIds(v, run[..|run| - 1]) && FreshIds(After(v, run[..|run| - 1]), run[|run| - 1]))
  }

  const EMPTY: View := View(map[], map[], map[], map[], map[])
}
