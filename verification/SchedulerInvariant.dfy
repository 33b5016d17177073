/** What every run of the scheduler keeps: task ownership, dispatch history, capacity. */
module SchedulerInvariant {
  import opened Tasks
  import opened GraphSpec
  import opened GraphInvariant
  import opened Workers
  import opened SchedulerSpec
  import Cycles

  /** Every build's graph is acyclic, and its state keeps the invariant of the graph's runs. */
  ghost predicate BuildsReachable(v: View) {
    forall b :: b in v.builds ==>
      Inv(v.builds[b].shape, v.builds[b].states) && !Cycles.Cyclic(v.builds[b].shape)
  }

  /** What every run keeps, whether or not builds share task ids. */
  ghost predicate Reachable(v: View) {
    v.Valid() && BuildsReachable(v)
  }

  /** Each task id belongs to one build, the one recorded in taskBuild. */
  ghost predicate IdsOwned(v: View) {
    forall b, t :: v.Has(b, t) ==> t in v.taskBuild && v.taskBuild[t] == b
  }

  predicate OnWorker(s: TaskState) {
    s == Scheduled || s == Running
  }

  /** Every task in taskWorker is Scheduled or Running. */
  ghost predicate MappedOnWorker(v: View) {
    forall t :: t in v.taskWorker ==>
      t in v.taskBuild && v.Has(v.taskBuild[t], t) && OnWorker(v.State(v.taskBuild[t], t))
  }

  /** What every run keeps in which no two builds share a task id. */
  ghost predicate Sound(v: View) {
    Reachable(v) && IdsOwned(v) && MappedOnWorker(v)
  }

  lemma ReachableValid(v: View)
    requires Reachable(v)
    ensures v.Valid()
  {
  }

  lemma SoundValid(v: View)
    requires Sound(v)
    ensures v.Valid() && Reachable(v)
  {
  }

  lemma SoundBuild(v: View, b: string)
    requires Sound(v) && b in v.builds
    ensures Inv(v.builds[b].shape, v.builds[b].states)
  {
  }

  /** A mapped task in a given build is on its worker. */
  lemma MappedState(v: View, b: string, t: string)
    requires Sound(v) && v.Has(b, t) && t in v.taskWorker
    ensures OnWorker(v.State(b, t))
  {
    assert v.taskBuild[t] == b;
  }

  lemma SameTasks(v: View, b: string, s: States, c: string, t: string)
    requires b in v.builds && s.Keys == v.builds[b].states.Keys
    ensures var u := v.WithStates(b, s);
      && (u.Has(c, t) <==> v.Has(c, t))
      && (u.Has(c, t) ==> u.State(c, t) == if c == b then s[t] else v.State(c, t))
  {
  }

  lemma StillMapped(v: View, b: string, s: States)
    requires MappedOnWorker(v) && b in v.builds && s.Keys == v.builds[b].states.Keys
    requires forall t :: v.Has(b, t) && t in v.taskWorker ==> OnWorker(s[t])
    ensures MappedOnWorker(v.WithStates(b, s))
  {
    forall t | t in v.taskWorker
      ensures v.WithStates(b, s).Has(v.taskBuild[t], t) && OnWorker(v.WithStates(b, s).State(v.taskBuild[t], t))
    {
      SameTasks(v, b, s, v.taskBuild[t], t);
    }
  }

  lemma StillOwned(v: View, b: string, s: States)
    requires IdsOwned(v) && b in v.builds && s.Keys == v.builds[b].states.Keys
    ensures IdsOwned(v.WithStates(b, s))
  {
    forall c, t | v.WithStates(b, s).Has(c, t)
      ensures t in v.taskBuild && v.taskBuild[t] == c
    {
      SameTasks(v, b, s, c, t);
    }
  }

  lemma SameIds(g: Shape, s: States, t: States)
    requires Fits(g, s) && Fits(g, t)
    ensures s.Keys == t.Keys
  {
  }

  /** One build moves on; the mapped tasks stay on their workers. */
  lemma BuildMoves(v: View, b: string, s: States)
    requires Sound(v) && b in v.builds && Inv(v.builds[b].shape, s)
    requires forall t :: v.Has(b, t) && t in v.taskWorker ==> OnWorker(s[t])
    ensures Sound(v.WithStates(b, s))
  {
    hide InvExcept, Fits, MappedOnWorker, IdsOwned, Cycles.Cyclic;
    InvFits(v.builds[b].shape, s);
    SameIds(v.builds[b].shape, v.builds[b].states, s);
    StillMapped(v, b, s);
    StillOwned(v, b, s);
  }

  /** Soundness does not depend on the workers, and losing mappings keeps it. */
  lemma FewerMapped(v: View, u: View)
    requires Sound(v) && u.builds == v.builds && u.taskBuild == v.taskBuild
    requires forall t :: t in u.taskWorker ==> t in v.taskWorker
    ensures Sound(u)
  {
    assert forall b, t :: u.Has(b, t) <==> v.Has(b, t);
    forall t | t in u.taskWorker
      ensures t in u.taskBuild && u.Has(u.taskBuild[t], t) && OnWorker(u.State(u.taskBuild[t], t))
    {
      assert v.Has(v.taskBuild[t], t);
    }
  }

  lemma MoreMapped(v: View, b: string, t: string, w: string)
    requires Sound(v) && v.Has(b, t) && OnWorker(v.State(b, t))
    ensures Sound(v.(taskWorker := v.taskWorker[t := w]))
  {
    hide Inv, Fits, Cycles.Cyclic;
    var u := v.(taskWorker := v.taskWorker[t := w]);
    assert forall c, x :: u.Has(c, x) <==> v.Has(c, x);
    forall x | x in u.taskWorker
      ensures x in u.taskBuild && u.Has(u.taskBuild[x], x) && OnWorker(u.State(u.taskBuild[x], x))
    {
      if x == t {
        assert v.taskBuild[t] == b;
      } else {
        assert v.Has(v.taskBuild[x], x);
      }
    }
  }

  lemma SubmittedOwned(v: View, e: Action)
    requires v.Valid() && e.Submit? && Permitted(v, e) && FreshIds(v, e) && e.build !in v.builds && IdsOwned(v)
    ensures IdsOwned(Next(v, e))
  {
    var u := Next(v, e);
    forall c, t | u.Has(c, t)
      ensures t in u.taskBuild && u.taskBuild[t] == c
    {
      assert c != e.build ==> v.Has(c, t);
    }
  }

  lemma SubmittedMapped(v: View, e: Action)
    requires v.Valid() && e.Submit? && Permitted(v, e) && FreshIds(v, e) && e.build !in v.builds && MappedOnWorker(v)
    ensures MappedOnWorker(Next(v, e))
  {
    var u := Next(v, e);
    forall t | t in u.taskWorker
      ensures t in u.taskBuild && u.Has(u.taskBuild[t], t) && OnWorker(u.State(u.taskBuild[t], t))
    {
      assert v.Has(v.taskBuild[t], t) && t !in e.view.shape.Ids();
    }
  }

  lemma SubmitReachable(v: View, e: Action)
    requires Reachable(v) && e.Submit? && Permitted(v, e)
    ensures Reachable(Next(v, e))
  {
    hide Next, Inv, Initial, View.Valid, Cycles.Cyclic;
    InitialInv(e.view.shape);
    InvFits(e.view.shape, e.view.states);
    NextValid(v, e);
    SubmitIs(v, e);
  }

  lemma SubmitIs(v: View, e: Action)
    requires v.Valid() && e.Submit?
    ensures Next(v, e).builds == if e.build in v.builds then v.builds else v.builds[e.build := e.view]
  {
  }

  lemma SubmitSound(v: View, e: Action)
    requires Sound(v) && e.Submit? && Permitted(v, e) && FreshIds(v, e)
    ensures Sound(Next(v, e))
  {
    hide Permitted, Next, IdsOwned, MappedOnWorker, View.Valid, FreshIds, Reachable;
    SoundValid(v);
    SubmitReachable(v, e);
    if e.build in v.builds {
      SubmitAgain(v, e);
    } else {
      SubmittedOwned(v, e);
      SubmittedMapped(v, e);
    }
  }

  lemma SubmitAgain(v: View, e: Action)
    requires v.Valid() && e.Submit? && Permitted(v, e) && e.build in v.builds
    ensures Next(v, e) == v
  {
  }

  /** Dispatching is Assign, followed by Start when the callback succeeds. */
  lemma DispatchStates(g: Shape, s: States, t: string, delivered: bool)
    requires Inv(g, s) && t in s && s[t] == Ready
    ensures Inv(g, s[t := if delivered then Running else Scheduled])
  {
    hide Inv;
    MovedOnInv(g, s, t, if delivered then Running else Scheduled);
  }

  lemma DispatchIs(v: View, b: string, t: string, w: string, delivered: bool)
    requires v.Valid() && Permitted(v, Dispatch(b, t, w, delivered))
    ensures v.Has(b, t) && v.State(b, t) == Ready
    ensures var u := Next(v, Dispatch(b, t, w, delivered));
      && u.builds == v.WithStates(b, v.builds[b].states[t := if delivered then Running else Scheduled]).builds
      && u.taskWorker == v.taskWorker[t := w] && u.taskBuild == v.taskBuild
  {
  }

  lemma DispatchSound(v: View, b: string, t: string, w: string, delivered: bool)
    requires Sound(v) && Permitted(v, Dispatch(b, t, w, delivered))
    ensures Sound(Next(v, Dispatch(b, t, w, delivered)))
  {
    hide Sound, Next, Permitted, Inv, View.Valid;
    SoundValid(v);
    DispatchIs(v, b, t, w, delivered);
    SoundBuild(v, b);
    var s := v.builds[b].states[t := if delivered then Running else Scheduled];
    DispatchStates(v.builds[b].shape, v.builds[b].states, t, delivered);
    forall x | v.Has(b, x) && x in v.taskWorker
      ensures OnWorker(s[x])
    {
      MappedState(v, b, x);
    }
    BuildMoves(v, b, s);
    var moved := v.WithStates(b, s);
    MoreMapped(moved, b, t, w);
    FewerMapped(moved.(taskWorker := moved.taskWorker[t := w]), Next(v, Dispatch(b, t, w, delivered)));
  }

  lemma ScanSound(v: View, b: string)
    requires Sound(v)
    ensures Sound(Next(v, Scan(b)))
  {
    if b !in v.builds {
      return;
    }
    MarkReadyInv(v.builds[b].shape, v.builds[b].states);
    forall t | v.Has(b, t) && t in v.taskWorker
      ensures OnWorker(MarkReadyAll(v.builds[b].shape, v.builds[b].states)[t])
    {
      MappedState(v, b, t);
    }
    BuildMoves(v, b, MarkReadyAll(v.builds[b].shape, v.builds[b].states));
  }

  lemma ReportSound(v: View, e: Action)
    requires Sound(v) && e.Report? && Permitted(v, e)
    ensures Sound(Next(v, e))
  {
    var g, s := v.builds[e.build].shape, v.builds[e.build].states;
    FinishInv(g, s, e.task, e.outcome, e.order);
    var after := Finish(g, s, e.task, e.outcome, e.order);
    forall t | v.Has(e.build, t) && t in v.taskWorker
      ensures OnWorker(after[t])
    {
      MappedState(v, e.build, t);
    }
    BuildMoves(v, e.build, after);
  }

  lemma CancelSound(v: View, b: string)
    requires Sound(v) && Permitted(v, CancelBuild(b))
    ensures Sound(Next(v, CancelBuild(b)))
  {
    CancelInv(v.builds[b].shape, v.builds[b].states);
    BuildMoves(v, b, CancelAll(v.builds[b].states));
  }

  predicate Administrative(e: Action) {
    e.Return? || e.Forget? || e.Register? || e.Unregister? || e.Heartbeat? || e.SetState?
  }

  lemma AdministrativeKeepsBuilds(v: View, e: Action)
    requires v.Valid() && Administrative(e)
    ensures Next(v, e).builds == v.builds && Next(v, e).taskBuild == v.taskBuild
    ensures Next(v, e).taskWorker.Keys <= v.taskWorker.Keys
  {
    hide View.Valid, Release, Beat, Finish, MarkReadyAll, CancelAll, Assigned;
  }

  lemma OthersSound(v: View, e: Action)
    requires Sound(v) && Administrative(e)
    ensures Sound(Next(v, e))
  {
    AdministrativeKeepsBuilds(v, e);
    hide *;
    FewerMapped(v, Next(v, e));
  }

  lemma NextSound(v: View, e: Action)
    requires Sound(v) && Permitted(v, e) && FreshIds(v, e)
    ensures Sound(Next(v, e))
  {
    hide Sound, Permitted, Inv, FreshIds;
    match e
    case Submit(b, view) => SubmitSound(v, e);
    case Scan(b) => ScanSound(v, b);
    case Dispatch(b, t, w, delivered) => DispatchSound(v, b, t, w, delivered);
    case Report(b, t, outcome, order) => ReportSound(v, e);
    case CancelBuild(b) => CancelSound(v, b);
    case _ => OthersSound(v, e);
  }

  lemma LastStep(v: View, run: seq<Action>)
    requires v.Valid() && run != [] && PermittedRun(v, run)
    ensures var u := After(v, run[..|run| - 1]);
      && PermittedRun(v, run[..|run| - 1]) && Permitted(u, run[|run| - 1])
      && After(v, run) == Next(u, run[|run| - 1])
  {
  }

  lemma {:induction false} PrefixPermitted(v: View, run: seq<Action>, j: nat)
    requires v.Valid() && PermittedRun(v, run) && j < |run|
    ensures PermittedRun(v, run[..j]) && Permitted(After(v, run[..j]), run[j])
    decreases |run|
  {
    if j < |run| - 1 {
      var init := run[..|run| - 1];
      PrefixPermitted(v, init, j);
      assert init[..j] == run[..j];
    }
  }

  // ----- runs in which builds may share task ids -----

  /** What an action does to the states of one build. */
  ghost function Projected(v: View, a: Action, b: string): (s: States)
    requires v.Valid() && b in v.builds
    ensures s.Keys == v.builds[b].states.Keys
  {
    var g, s := v.builds[b].shape, v.builds[b].states;
    match a
    case Scan(c) => if c == b then MarkReadyAll(g, s) else s
    case Report(c, t, outcome, order) => if c == b then Finish(g, s, t, outcome, order) else s
    case CancelBuild(c) => if c == b then CancelAll(s) else s
    case Dispatch(c, t, w, delivered) =>
      if c == b && t in s && w in v.workers then s[t := if delivered then Running else Scheduled] else s
    case _ => s
  }

  lemma ProjectedStates(v: View, a: Action, b: string)
    requires v.Valid() && b in v.builds
    ensures b in Next(v, a).builds && Next(v, a).builds[b] == v.builds[b].(states := Projected(v, a, b))
  {
    hide MarkReadyAll, Finish, CancelAll, View.Valid;
    if Administrative(a) {
      AdministrativeKeepsBuilds(v, a);
    }
  }

  lemma ProjectedInv(v: View, a: Action, b: string)
    requires Reachable(v) && Permitted(v, a) && b in v.builds
    ensures Inv(v.builds[b].shape, Projected(v, a, b))
  {
    hide MarkReadyAll, Finish, CancelAll, Inv, GraphSpec.Legal, Cycles.Cyclic;
    var g, s := v.builds[b].shape, v.builds[b].states;
    if a.Scan? && a.build == b {
      MarkReadyInv(g, s);
    } else if a.Report? && a.build == b {
      FinishInv(g, s, a.task, a.outcome, a.order);
    } else if a.CancelBuild? && a.build == b {
      CancelInv(g, s);
    } else if a.Dispatch? && a.build == b {
      DispatchStates(g, s, a.task, a.delivered);
    }
  }

  lemma NewBuilds(v: View, a: Action, b: string)
    requires v.Valid() && b !in v.builds && b in Next(v, a).builds
    ensures a.Submit? && a.build == b && Next(v, a).builds[b] == a.view
  {
    hide View.Valid, MarkReadyAll, Finish, CancelAll;
    if Administrative(a) {
      AdministrativeKeepsBuilds(v, a);
    }
  }

  lemma PermittedValid(v: View, a: Action)
    requires v.Valid() && Permitted(v, a)
    ensures Next(v, a).Valid()
  {
    NextValid(v, a);
  }

  lemma NextReachable(v: View, a: Action)
    requires Reachable(v) && Permitted(v, a)
    ensures Reachable(Next(v, a))
  {
    hide Next, Inv, Projected, Cycles.Cyclic;
    PermittedValid(v, a);
    forall b | b in Next(v, a).builds
      ensures Inv(Next(v, a).builds[b].shape, Next(v, a).builds[b].states) && !Cycles.Cyclic(Next(v, a).builds[b].shape)
    {
      if b in v.builds {
        ProjectedStates(v, a, b);
        ProjectedInv(v, a, b);
      } else {
        NewBuilds(v, a, b);
        InitialInv(a.view.shape);
      }
    }
  }

  /** Whatever the scheduler, its callers and the workers do, in any order, every build keeps the
      invariant of its graph's runs; BuildRuns says which run each has made. */
  lemma {:induction false} RunReachable(v: View, run: seq<Action>)
    requires Reachable(v) && PermittedRun(v, run)
    ensures Reachable(After(v, run))
    decreases |run|
  {
    if run != [] {
      LastStep(v, run);
      RunReachable(v, run[..|run| - 1]);
      NextReachable(After(v, run[..|run| - 1]), run[|run| - 1]);
    }
  }

  // ----- runs in which they do not -----

  /** If no two builds share a task id, every state is sound. */
  lemma {:induction false} RunSound(v: View, run: seq<Action>)
    requires Sound(v) && PermittedRun(v, run) && UniqueIds(v, run)
    ensures Sound(After(v, run))
    decreases |run|
  {
    if run != [] {
      LastStep(v, run);
      RunSound(v, run[..|run| - 1]);
      NextSound(After(v, run[..|run| - 1]), run[|run| - 1]);
    }
  }

  lemma EmptySound()
    ensures Sound(EMPTY)
  {
  }

  // ----- at most one release -----

  lemma ReturnIdle(v: View, b: string, t: string)
    requires v.Valid() && t !in v.taskWorker
    ensures Next(v, Return(b, t)) == v
  {
  }

  lemma ReportIdle(v: View, b: string, t: string, outcome: TaskState, order: seq<string>)
    requires v.Valid() && v.Has(b, t) && v.State(b, t).IsTerminal()
    ensures Next(v, Report(b, t, outcome, order)) == v
  {
    hide View.Valid, Finish;
    FinishIdle(v, b, t, outcome, order);
    assert v.WithStates(b, v.builds[b].states) == v;
  }

  lemma FinishIdle(v: View, b: string, t: string, outcome: TaskState, order: seq<string>)
    requires v.Valid() && v.Has(b, t) && v.State(b, t).IsTerminal()
    ensures Fits(v.builds[b].shape, v.builds[b].states)
    ensures Finish(v.builds[b].shape, v.builds[b].states, t, outcome, order) == v.builds[b].states
  {
    hide Unlock, Settle, Shape.Valid;
  }

  /** A report for a finished task leaves everything as it was exactly if no task of that id is
      mapped to a worker. */
  lemma LateReportIff(v: View, b: string, t: string, outcome: TaskState, order: seq<string>)
    requires v.Valid() && v.Has(b, t) && v.State(b, t).IsTerminal()
    ensures Next(v, Return(b, t)).Valid()
    ensures Next(Next(v, Return(b, t)), Report(b, t, outcome, order)) == v <==> t !in v.taskWorker
  {
    hide Next, Finish, View.Valid;
    NextValid(v, Return(b, t));
    var mid := Next(v, Return(b, t));
    ReturnUnmaps(v, b, t);
    ReportIdle(mid, b, t, outcome, order);
    if t !in v.taskWorker {
      ReturnIdle(v, b, t);
    }
  }

  lemma ReturnUnmaps(v: View, b: string, t: string)
    requires v.Valid() && v.Has(b, t)
    ensures Next(v, Return(b, t)).builds == v.builds && t !in Next(v, Return(b, t)).taskWorker
  {
    hide View.Valid, Release, Finish, MarkReadyAll, CancelAll, Assigned, Beat;
  }
}
