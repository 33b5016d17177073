/** What the methods of the scheduler achieve, from any state that a run can reach. */
module SchedulerOutcomes {
  import opened Collections
  import opened Tasks
  import opened GraphSpec
  import opened GraphInvariant
  import opened Workers
  import Cycles
  import opened SchedulerSpec
  import opened SchedulerInvariant
  import opened ScheduleCycle
  import opened SchedulerActions

  /** The runs of successive method calls make one run. */
  lemma {:induction false} RunsCompose(v: View, first: seq<Action>, second: seq<Action>)
    requires v.Valid() && PermittedRun(v, first) && PermittedRun(After(v, first), second)
    ensures PermittedRun(v, first + second) && After(v, first + second) == After(After(v, first), second)
    decreases |second|
  {
    hide Next, Permitted, View.Valid, PermittedRun, After;
    if second == [] {
      assert first + second == first;
      NothingRun(After(v, first));
    } else {
      var init, a := second[..|second| - 1], second[|second| - 1];
      assert first + second == first + init + [a];
      LastStep(After(v, first), second);
      RunsCompose(v, first, init);
      RunExtends(v, first + init, a);
    }
  }

  /** A report for a finished task changes neither graph nor ledger exactly if no task of that id
      is mapped to a worker. */
  lemma LateReportChangesNothingIff(v: View, b: string, t: string, outcome: TaskState, order: seq<string>)
    requires v.Valid() && v.Has(b, t) && v.State(b, t).IsTerminal()
    requires IsListing(order, v.builds[b].shape.edges[t])
    ensures After(v, ReportRun(v, b, t, outcome, order)) == v <==> t !in v.taskWorker
  {
    ReportIsRun(v, b, t, outcome, order);
    LateReportIff(v, b, t, outcome, order);
    hide *;
  }

  /** So, if no two builds share a task id, a late report, however often it comes, changes nothing. */
  lemma LateReportChangesNothing(v: View, b: string, t: string, outcome: TaskState, order: seq<string>)
    requires Sound(v) && v.Has(b, t) && v.State(b, t).IsTerminal()
    requires IsListing(order, v.builds[b].shape.edges[t])
    ensures After(v, ReportRun(v, b, t, outcome, order)) == v
  {
    SoundValid(v);
    LateReportChangesNothingIff(v, b, t, outcome, order);
    if t in v.taskWorker {
      MappedState(v, b, t);
      assert false;
    }
  }

  // ----- cancelling -----

  lemma {:induction false} ReturnsKeepBuilds(v: View, b: string, order: seq<string>)
    requires v.Valid() && PermittedRun(v, Returns(b, order))
    ensures After(v, Returns(b, order)).builds == v.builds
    ensures forall t :: t in After(v, Returns(b, order)).taskWorker ==> t in v.taskWorker
    ensures forall t :: t in v.taskWorker && !v.Has(b, t) ==> t in After(v, Returns(b, order)).taskWorker
    decreases |order|
  {
    hide View.Valid, Next, Permitted;
    if order == [] {
      NothingRun(v);
    } else {
      var init, t := order[..|order| - 1], order[|order| - 1];
      assert Returns(b, order)[..|order| - 1] == Returns(b, init);
      LastStep(v, Returns(b, order));
      ReturnsKeepBuilds(v, b, init);
      ReturnPermitted(After(v, Returns(b, init)), b, t);
      ReturnKeeps(After(v, Returns(b, init)), b, t);
    }
  }

  /** Cancelling finishes the build and no other, and frees its workers of it alone. */
  lemma CancelOutcome(v: View, b: string, order: seq<string>)
    requires v.Valid() && PermittedRun(v, CancelRun(b, order))
    ensures var u := After(v, CancelRun(b, order));
      && b in v.builds && u.builds == v.builds[b := v.builds[b].(states := u.builds[b].states)]
      && u.builds[b].states == CancelAll(v.builds[b].states)
      && forall t :: t in u.taskWorker <==> t in v.taskWorker && !v.Has(b, t)
  {
    LastStep(v, CancelRun(b, order));
    assert CancelRun(b, order)[..|order|] == Returns(b, order);
    ReturnsKeepBuilds(v, b, order);
  }

  // ----- a worker dies -----

  ghost function WithoutTask(v: View, t: string): (u: View)
    requires v.Valid()
    ensures u.Valid()
  {
    v.(taskWorker := v.taskWorker - {t})
  }

  lemma ReportIs(v: View, e: Action)
    requires v.Valid() && e.Report? && e.build in v.builds
    ensures Next(v, e) ==
      v.WithStates(e.build, Finish(v.builds[e.build].shape, v.builds[e.build].states, e.task, e.outcome, e.order))
  {
  }

  /** Failing one task, if it was running, changes no other task that has left Pending. */
  lemma FailsOnly(g: Shape, s: States, t: string, order: seq<string>, x: string)
    requires Inv(g, s) && GraphSpec.Legal(g, Complete(t, Failed, order)) && x in s && s[x] != Pending
    ensures Fits(g, s) && x in Finish(g, s, t, Failed, order)
    ensures Finish(g, s, t, Failed, order)[x] == if x == t && s[x] == Running then Failed else s[x]
  {
    hide Finish, InvExcept, IsListing, TableMoves;
    InvFits(g, s);
    FinishInv(g, s, t, Failed, order);
  }

  /** The state of a task that is lost or not, in a build, when only what was running fails. */
  ghost function AfterLoss(v: View, lost: seq<string>, b: string, x: string): TaskState
    requires v.Has(b, x)
  {
    if x in lost && OwnerOf(v, x) == b && v.State(b, x) == Running then Failed else v.State(b, x)
  }

  /** What is left after some tasks are lost. */
  ghost predicate LossesSeen(v: View, u: View, lost: seq<string>) {
    && u.taskBuild == v.taskBuild && u.workers == v.workers && u.builds.Keys == v.builds.Keys
    && (forall t :: t in u.taskWorker <==> t in v.taskWorker && t !in lost)
    && forall b, x :: v.Has(b, x) && v.State(b, x) != Pending ==>
         u.Has(b, x) && u.State(b, x) == AfterLoss(v, lost, b, x)
  }

  lemma LossStep(v: View, u: View, lost: seq<string>, t: string, order: seq<string>, b: string, x: string)
    requires Reachable(u) && LossesSeen(v, u, lost)
    requires Permitted(WithoutTask(u, t), Report(OwnerOf(v, t), t, Failed, order))
    requires v.Has(b, x) && v.State(b, x) != Pending
    ensures var r := Next(WithoutTask(u, t), Report(OwnerOf(v, t), t, Failed, order));
      r.Has(b, x) && r.State(b, x) == AfterLoss(v, lost + [t], b, x)
  {
    hide Finish, Inv, IsListing, Next, View.Valid, Cycles.Cyclic;
    ReachableValid(u);
    ReportIs(WithoutTask(u, t), Report(OwnerOf(v, t), t, Failed, order));
    assert x in lost + [t] <==> x in lost || x == t;
    if OwnerOf(v, t) == b {
      FailsOnly(u.builds[b].shape, u.builds[b].states, t, order, x);
    }
  }

  lemma LossesSeenStep(v: View, u: View, lost: seq<string>, t: string, order: seq<string>)
    requires Reachable(u) && LossesSeen(v, u, lost)
    requires Permitted(WithoutTask(u, t), Report(OwnerOf(v, t), t, Failed, order))
    ensures LossesSeen(v, Next(WithoutTask(u, t), Report(OwnerOf(v, t), t, Failed, order)), lost + [t])
  {
    hide Next, Reachable, Finish, View.Valid, AfterLoss;
    ReachableValid(u);
    var r := Next(WithoutTask(u, t), Report(OwnerOf(v, t), t, Failed, order));
    ReportIs(WithoutTask(u, t), Report(OwnerOf(v, t), t, Failed, order));
    forall b, x | v.Has(b, x) && v.State(b, x) != Pending
      ensures r.Has(b, x) && r.State(b, x) == AfterLoss(v, lost + [t], b, x)
    {
      LossStep(v, u, lost, t, order, b, x);
    }
  }

  /** When a worker dies, of all tasks in all builds that have left Pending, exactly the running
      ones that it had fail. A task whose dispatch had failed loses its mapping and stays
      Scheduled, and no capacity is given back. */
  lemma {:induction false} DeathOutcome(v: View, lost: seq<string>, orders: seq<seq<string>>)
    requires Reachable(v) && |orders| == |lost| && PermittedRun(v, Losses(v, lost, orders))
    ensures LossesSeen(v, After(v, Losses(v, lost, orders)), lost)
    decreases |lost|
  {
    hide Reachable, View.Valid, LossesSeen, Next, Permitted, After, PermittedRun, Losses, OwnerOf;
    ReachableValid(v);
    if lost == [] {
      NothingLost(v, orders);
    } else {
      var n := |lost| - 1;
      var run, t := Losses(v, lost[..n], orders[..n]), lost[n];
      LossesUnfold(v, lost, orders);
      TwoSteps(v, run, Forget(t), Report(OwnerOf(v, t), t, Failed, orders[n]));
      ForgetStep(After(v, run), t);
      DeathOutcome(v, lost[..n], orders[..n]);
      RunReachable(v, run);
      LossesSeenStep(v, After(v, run), lost[..n], t, orders[n]);
      assert lost[..n] + [t] == lost;
    }
  }

  lemma NothingLost(v: View, orders: seq<seq<string>>)
    requires v.Valid() && orders == []
    ensures After(v, Losses(v, [], orders)) == v && LossesSeen(v, v, [])
  {
  }

  lemma LossesUnfold(v: View, lost: seq<string>, orders: seq<seq<string>>)
    requires |orders| == |lost| && lost != []
    ensures var n := |lost| - 1;
      Losses(v, lost, orders) == Losses(v, lost[..n], orders[..n])
        + [Forget(lost[n]), Report(OwnerOf(v, lost[n]), lost[n], Failed, orders[n])]
  {
  }

  lemma ForgetStep(v: View, t: string)
    requires v.Valid()
    ensures Next(v, Forget(t)) == WithoutTask(v, t)
  {
  }

  lemma TwoSteps(v: View, run: seq<Action>, a: Action, b: Action)
    requires v.Valid() && PermittedRun(v, run + [a, b])
    ensures var u := After(v, run);
      && PermittedRun(v, run) && Permitted(u, a) && Next(u, a).Valid() && Permitted(Next(u, a), b)
      && After(v, run + [a, b]) == Next(Next(u, a), b)
  {
    LastStep(v, run + [a, b]);
    assert (run + [a, b])[..|run| + 1] == run + [a];
    LastStep(v, run + [a]);
    assert (run + [a])[..|run|] == run;
  }

  // ----- a task that nobody will run or fail -----

  ghost function Lone(t: string, n: Need): Shape {
    Shape(map[t := OnSuccess], map[t := n], map[t := {}], map[t := {}])
  }

  lemma LoneValid(t: string, n: Need)
    ensures var g := Lone(t, n);
      && g.Valid() && !Cycles.Cyclic(g) && g.Ids() == {t} && Initial(g) == map[t := Pending]
      && MarkReadyAll(g, Initial(g)) == map[t := Ready]
  {
    var g := Lone(t, n);
    assert Elements([t]) == {t};
    assert Cycles.Topological(g, [t]);
    Cycles.TopologicalMeansAcyclic(g, [t]);
    assert AllDepsPassed(g, Initial(g), t);
  }

  /** One task in one build, and one worker, which has it once it is Scheduled. */
  ghost function Alone(b: string, t: string, w: string, slot: Slot, n: Need, s: TaskState): View {
    View(map[b := BuildView(Lone(t, n), map[t := s])], map[w := slot],
         if s == Scheduled then map[t := w] else map[], map[t := b],
         if s == Scheduled then map[b := {w}] else map[])
  }

  /** What is left of a task whose callback failed, on a worker that has then died. */
  ghost function Deserted(b: string, t: string, w: string, slot: Slot, n: Need): View {
    Alone(b, t, w, slot.(state := Dead), n, Scheduled)
  }

  lemma AloneValid(b: string, t: string, w: string, slot: Slot, n: Need, s: TaskState)
    ensures Alone(b, t, w, slot, n, s).Valid()
  {
    LoneValid(t, n);
    hide Shape.Valid, Cycles.Cyclic, Initial, MarkReadyAll;
  }

  lemma AloneSubmitted(b: string, t: string, w: string, slot: Slot, n: Need)
    requires slot.state == Active
    ensures var e, v := Submit(b, BuildView(Lone(t, n), Initial(Lone(t, n)))), Next(EMPTY, Register(w, slot));
      v.Valid() && Permitted(v, e) && Next(v, e) == Alone(b, t, w, slot, n, Pending)
  {
    hide Shape.Valid, Cycles.Cyclic, Initial, MarkReadyAll;
    LoneValid(t, n);
    var v := View(map[], map[w := slot], map[], map[], map[]);
    assert slot.(state := Active) == slot && EMPTY.WithSlot(w, slot) == v;
    assert Next(EMPTY, Register(w, slot)) == v;
    FirstBuild(v, b, Lone(t, n), map[t := Pending]);
    assert (map x | x in Lone(t, n).Ids() :: b) == map[t := b];
  }

  lemma FirstBuild(v: View, b: string, g: Shape, s: States)
    requires v.builds == map[] && v.taskBuild == map[]
    ensures v.Valid()
    ensures Next(v, Submit(b, BuildView(g, s))) ==
      v.(builds := map[b := BuildView(g, s)], taskBuild := map x | x in g.Ids() :: b)
  {
  }

  lemma AloneScanned(b: string, t: string, w: string, slot: Slot, n: Need)
    ensures var v := Alone(b, t, w, slot, n, Pending);
      v.Valid() && Next(v, Scan(b)) == Alone(b, t, w, slot, n, Ready)
  {
    AloneValid(b, t, w, slot, n, Pending);
    LoneValid(t, n);
    hide View.Valid, Cycles.Cyclic, Initial, MarkReadyAll;
  }

  lemma AloneDispatched(b: string, t: string, w: string, slot: Slot, n: Need)
    requires Accepts(slot, n)
    ensures var v, e := Alone(b, t, w, slot, n, Ready), Dispatch(b, t, w, false);
      v.Valid() && Permitted(v, e) && Next(v, e) == Alone(b, t, w, slot, n, Scheduled)
  {
    hide View.Valid, Reserve, Release, Next, Permitted, Leftover;
    AloneValid(b, t, w, slot, n, Ready);
    ReleaseUndoesReserve(slot, n);
    var v, u := Alone(b, t, w, slot, n, Ready), Alone(b, t, w, slot, n, Scheduled);
    assert map[t := Ready][t := Scheduled] == map[t := Scheduled];
    assert v.workers[w := slot] == v.workers && {} + {w} == {w};
    DispatchPermitted(v, b, t, w);
    DispatchedStatus(v, u, b, t, w, false);
  }

  lemma AloneDied(b: string, t: string, w: string, slot: Slot, n: Need)
    ensures var v := Alone(b, t, w, slot, n, Scheduled);
      v.Valid() && Next(v, SetState(w, Dead)) == Deserted(b, t, w, slot, n)
  {
    AloneValid(b, t, w, slot, n, Scheduled);
    hide View.Valid;
  }

  ghost function DesertedRun(b: string, t: string, w: string, slot: Slot, n: Need): seq<Action> {
    [] + [Register(w, slot)] + [Submit(b, BuildView(Lone(t, n), Initial(Lone(t, n))))] + [Scan(b)]
      + [Dispatch(b, t, w, false)] + [SetState(w, Dead)]
  }

  lemma DesertedReached(b: string, t: string, w: string, slot: Slot, n: Need)
    requires slot.state == Active && Accepts(slot, n)
    ensures PermittedRun(EMPTY, DesertedRun(b, t, w, slot, n))
    ensures After(EMPTY, DesertedRun(b, t, w, slot, n)) == Deserted(b, t, w, slot, n)
  {
    hide PermittedRun, After, Permitted, Next, Lone, Initial, Alone, Deserted, View.Valid, Accepts;
    var first, second := Register(w, slot), Submit(b, BuildView(Lone(t, n), Initial(Lone(t, n))));
    NothingRun(EMPTY);
    AlwaysPermitted(EMPTY, first);
    RunExtends(EMPTY, [], first);
    AloneSubmitted(b, t, w, slot, n);
    RunExtends(EMPTY, [] + [first], second);
    AloneScanned(b, t, w, slot, n);
    AlwaysPermitted(Alone(b, t, w, slot, n, Pending), Scan(b));
    RunExtends(EMPTY, [] + [first] + [second], Scan(b));
    AloneDispatched(b, t, w, slot, n);
    RunExtends(EMPTY, [] + [first] + [second] + [Scan(b)], Dispatch(b, t, w, false));
    AloneDied(b, t, w, slot, n);
    AlwaysPermitted(Alone(b, t, w, slot, n, Scheduled), SetState(w, Dead));
    RunExtends(EMPTY, [] + [first] + [second] + [Scan(b)] + [Dispatch(b, t, w, false)], SetState(w, Dead));
  }

  lemma AlwaysPermitted(v: View, a: Action)
    requires a.Register? || a.Scan? || a.SetState?
    ensures Permitted(v, a)
  {
  }

  /** A run in which a callback fails and the worker then dies, after which the task is still
      Scheduled, on no worker: HandleDeadWorker takes it off without failing it. */
  lemma TaskDeserted(b: string, t: string, w: string, slot: Slot, n: Need)
    requires slot.state == Active && Accepts(slot, n)
    ensures PermittedRun(EMPTY, DesertedRun(b, t, w, slot, n))
    ensures var v := After(EMPTY, DesertedRun(b, t, w, slot, n));
      && LostWith(v, w) == {t} && PermittedRun(v, Losses(v, [t], [[]]))
      && var u := After(v, Losses(v, [t], [[]]));
         u.Has(b, t) && u.State(b, t) == Scheduled && t !in u.taskWorker
  {
    DesertedReached(b, t, w, slot, n);
    var v := Deserted(b, t, w, slot, n);
    DesertedLost(b, t, w, slot, n);
    EmptySound();
    RunReachable(EMPTY, DesertedRun(b, t, w, slot, n));
    DeathOutcome(v, [t], [[]]);
    hide PermittedRun, After, Losses, Reachable;
  }

  lemma DesertedLost(b: string, t: string, w: string, slot: Slot, n: Need)
    ensures var v := Deserted(b, t, w, slot, n);
      && v.Valid() && LostWith(v, w) == {t} && v.Has(b, t) && v.State(b, t) == Scheduled
      && PermittedRun(v, Losses(v, [t], [[]]))
  {
    hide PermittedRun, After, Losses, View.Valid;
    var v := Deserted(b, t, w, slot, n);
    var none: seq<string>, orders: seq<seq<string>> := [], [];
    AloneValid(b, t, w, slot.(state := Dead), n, Scheduled);
    NothingRun(v);
    NothingLostYet(v);
    assert Elements(none) == v.builds[b].shape.edges[t];
    assert none + [t] == [t] && orders + [none] == [none];
    LossExtends(v, v, none, orders, t, none);
  }
}
