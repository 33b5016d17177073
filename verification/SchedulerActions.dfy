/** What each method of the scheduler amounts to, as a run of actions. */
module SchedulerActions {
  import opened Collections
  import opened Tasks
  import opened GraphSpec
  import opened Workers
  import opened SchedulerSpec
  import opened ScheduleCycle
  import Cycles

  ghost function WithState(builds: map<string, BuildView>, b: string, x: string, s: TaskState): map<string, BuildView> {
    if b in builds then builds[b := builds[b].(states := builds[b].states[x := s])] else builds
  }

  lemma WithStateTwice(builds: map<string, BuildView>, b: string, x: string, s: TaskState, t: TaskState)
    ensures WithState(WithState(builds, b, x, s), b, x, t) == WithState(builds, b, x, t)
  {
    if b in builds {
      assert builds[b].states[x := s][x := t] == builds[b].states[x := t];
    }
  }

  lemma DispatchedStatus(v: View, u: View, b: string, t: string, w: string, sent: bool)
    requires v.Valid() && v.Has(b, t) && w in v.workers
    requires u.builds == WithState(v.builds, b, t, if sent then Running else Scheduled)
    requires var n := v.builds[b].shape.need[t];
      u.workers == v.workers[w := if sent then Reserve(v.workers[w], n) else Release(Reserve(v.workers[w], n), n)]
    requires u.taskWorker == v.taskWorker[t := w] && u.taskBuild == v.taskBuild
    requires u.buildWorkers == v.buildWorkers[b := (if b in v.buildWorkers then v.buildWorkers[b] else {}) + {w}]
    ensures u == Next(v, Dispatch(b, t, w, sent))
  {
  }

  /** The actions that only write the states of one build. */
  lemma BuildStatus(v: View, u: View, b: string, s: States)
    requires v.Valid() && b in v.builds
    requires u == v.(builds := v.builds[b := v.builds[b].(states := s)])
    ensures s == MarkReadyAll(v.builds[b].shape, v.builds[b].states) ==> u == Next(v, Scan(b))
    ensures s == CancelAll(v.builds[b].states) ==> u == Next(v, CancelBuild(b))
    ensures forall t, outcome, order ::
              s == Finish(v.builds[b].shape, v.builds[b].states, t, outcome, order) ==>
                  u == Next(v, Report(b, t, outcome, order))
  {
    hide View.Valid, Finish, MarkReadyAll, CancelAll;
  }

  lemma SubmitStatus(v: View, u: View, b: string, view: BuildView)
    requires v.Valid() && b !in v.builds
    requires u.builds == v.builds[b := view]
    requires u.taskBuild == v.taskBuild + map t | t in view.shape.Ids() :: b
    requires u.workers == v.workers && u.taskWorker == v.taskWorker && u.buildWorkers == v.buildWorkers
    ensures u == Next(v, Submit(b, view))
  {
  }

  lemma SubmitPermitted(v: View, b: string, view: BuildView, order: seq<string>)
    requires view.shape.Valid() && Cycles.Topological(view.shape, order) && view.states == Initial(view.shape)
    ensures Permitted(v, Submit(b, view))
  {
    Cycles.TopologicalMeansAcyclic(view.shape, order);
  }

  lemma ReturnedStatus(v: View, u: View, b: string, t: string)
    requires v.Valid() && v.Has(b, t)
    requires u.builds == v.builds && u.taskBuild == v.taskBuild && u.buildWorkers == v.buildWorkers
    requires u.taskWorker == v.taskWorker - {t}
    requires t in v.taskWorker && v.taskWorker[t] in v.workers ==>
      u.workers == v.workers[v.taskWorker[t] := Release(v.workers[v.taskWorker[t]], v.builds[b].shape.need[t])]
    requires !(t in v.taskWorker && v.taskWorker[t] in v.workers) ==> u.workers == v.workers
    ensures u == Next(v, Return(b, t))
  {
    if t !in v.taskWorker {
      assert v.taskWorker - {t} == v.taskWorker;
    }
  }

  lemma DispatchPermitted(v: View, b: string, t: string, w: string)
    requires v.Valid() && v.Has(b, t) && v.State(b, t) == Ready
    requires BestFit(v.workers, v.builds[b].shape.need[t], w)
    ensures forall sent :: Permitted(v, Dispatch(b, t, w, sent))
  {
  }

  /** What a report amounts to; nothing, when it is about no known task. */
  ghost function ReportRun(v: View, b: string, t: string, outcome: TaskState, order: seq<string>): seq<Action> {
    if v.Has(b, t) then [Return(b, t), Report(b, t, outcome, order)] else []
  }

  lemma ReturnKeeps(v: View, b: string, t: string)
    requires v.Valid() && v.Has(b, t)
    ensures Next(v, Return(b, t)).builds == v.builds
    ensures Next(v, Return(b, t)).taskWorker == v.taskWorker - {t}
  {
    assert t !in v.taskWorker ==> v.taskWorker - {t} == v.taskWorker;
  }

  lemma ReturnPermitted(v: View, b: string, t: string)
    ensures Permitted(v, Return(b, t)) <==> v.Has(b, t)
  {
  }

  lemma ReportPermitted(v: View, b: string, t: string, outcome: TaskState, order: seq<string>)
    requires t !in v.taskWorker && b in v.builds && Reportable(outcome)
    requires t in v.builds[b].shape.edges ==> IsListing(order, v.builds[b].shape.edges[t])
    ensures Permitted(v, Report(b, t, outcome, order))
  {
  }

  lemma ReportIsRun(v: View, b: string, t: string, outcome: TaskState, order: seq<string>)
    requires v.Valid() && v.Has(b, t) && IsListing(order, v.builds[b].shape.edges[t])
    ensures var run := ReportRun(v, b, t, outcome, order);
      && Next(v, Return(b, t)).Valid() && (Reportable(outcome) ==> PermittedRun(v, run))
      && After(v, run) == Next(Next(v, Return(b, t)), Report(b, t, outcome, order))
  {
    hide Next, Permitted, PermittedRun, After, View.Valid, IsListing;
    var mid := Next(v, Return(b, t));
    NextValid(v, Return(b, t));
    NothingRun(v);
    ReturnPermitted(v, b, t);
    RunExtends(v, [], Return(b, t));
    ReturnKeeps(v, b, t);
    assert [] + [Return(b, t)] == [Return(b, t)];
    assert [Return(b, t)] + [Report(b, t, outcome, order)] == ReportRun(v, b, t, outcome, order);
    AfterExtends(v, [Return(b, t)], Report(b, t, outcome, order));
    if Reportable(outcome) {
      ReportPermitted(mid, b, t, outcome, order);
      RunExtends(v, [Return(b, t)], Report(b, t, outcome, order));
    }
  }

  ghost function Returns(b: string, order: seq<string>): (run: seq<Action>)
    ensures |run| == |order|
  {
    seq(|order|, i requires 0 <= i < |order| => Return(b, order[i]))
  }

  lemma NothingReturned(b: string)
    ensures Returns(b, []) == [] && IsListing<string>([], {})
  {
  }

  lemma WithoutOneMore(m: map<string, string>, done: set<string>, x: string)
    ensures m - done - {x} == m - (done + {x})
  {
  }

  /** Every task of the build is taken off its worker, and then cancelled if unfinished. */
  ghost function CancelRun(b: string, order: seq<string>): seq<Action> {
    Returns(b, order) + [CancelBuild(b)]
  }

  lemma ReturnsExtend(v: View, u: View, b: string, order: seq<string>, x: string)
    requires v.Valid() && PermittedRun(v, Returns(b, order)) && u == After(v, Returns(b, order)) && u.Has(b, x)
    ensures PermittedRun(v, Returns(b, order + [x]))
    ensures After(v, Returns(b, order + [x])) == Next(u, Return(b, x))
  {
    hide Next, PermittedRun, After, View.Valid, View.Has;
    ReturnPermitted(u, b, x);
    RunExtends(v, Returns(b, order), Return(b, x));
    assert Returns(b, order) + [Return(b, x)] == Returns(b, order + [x]);
  }

  /** The build a task is recorded under; Go reads "" for a missing entry. */
  function OwnerOf(v: View, t: string): string {
    if t in v.taskBuild then v.taskBuild[t] else ""
  }

  /** The tasks that go down with a worker. */
  ghost function LostWith(v: View, w: string): set<string> {
    set t | t in v.taskWorker && v.taskWorker[t] == w && OwnerOf(v, t) in v.builds
  }

  /** What the death of a worker amounts to. */
  ghost function Losses(v: View, lost: seq<string>, orders: seq<seq<string>>): seq<Action>
    requires |orders| == |lost|
    decreases |lost|
  {
    if lost == [] then []
    else
      var n := |lost| - 1;
      Losses(v, lost[..n], orders[..n]) + [Forget(lost[n]), Report(OwnerOf(v, lost[n]), lost[n], Failed, orders[n])]
  }

  lemma NothingLostYet(v: View)
    ensures Losses(v, [], []) == []
  {
  }

  /** The loop over taskWorker, with some entries still to be looked at. */
  ghost predicate PartlyLost(v: View, w: string, todo: set<string>, lost: seq<string>, left: map<string, string>) {
    && IsListing(lost, LostWith(v, w) - todo)
    && left == v.taskWorker - (LostWith(v, w) - todo)
    && todo <= left.Keys
  }

  lemma LostIff(v: View, w: string, t: string)
    ensures t in LostWith(v, w) <==> t in v.taskWorker && v.taskWorker[t] == w && OwnerOf(v, t) in v.builds
  {
  }

  lemma LostStart(v: View, w: string)
    ensures PartlyLost(v, w, v.taskWorker.Keys, [], v.taskWorker)
  {
    assert LostWith(v, w) - v.taskWorker.Keys == {};
  }

  lemma LostStep(v: View, w: string, todo: set<string>, lost: seq<string>, left: map<string, string>, t: string)
    requires PartlyLost(v, w, todo, lost, left) && t in todo
    ensures t in left && t in v.taskWorker && left[t] == v.taskWorker[t]
    ensures t in LostWith(v, w) ==> PartlyLost(v, w, todo - {t}, lost + [t], left - {t})
    ensures t !in LostWith(v, w) ==> PartlyLost(v, w, todo - {t}, lost, left)
  {
    if t in LostWith(v, w) {
      ListingExtends(lost, LostWith(v, w) - todo, t);
      assert LostWith(v, w) - todo + {t} == LostWith(v, w) - (todo - {t});
    } else {
      assert LostWith(v, w) - todo == LostWith(v, w) - (todo - {t});
    }
  }

  lemma LostEnd(v: View, w: string, lost: seq<string>, left: map<string, string>)
    requires PartlyLost(v, w, {}, lost, left)
    ensures IsListing(lost, LostWith(v, w)) && left == v.taskWorker - LostWith(v, w)
  {
    assert LostWith(v, w) - {} == LostWith(v, w);
  }

  lemma LostAre(v: View, w: string, lost: seq<string>)
    requires IsListing(lost, LostWith(v, w))
    ensures forall t :: t in lost <==> t in v.taskWorker && v.taskWorker[t] == w && OwnerOf(v, t) in v.builds
    ensures v.taskWorker - LostWith(v, w) == map t | t in v.taskWorker && t !in lost :: v.taskWorker[t]
  {
    assert forall t :: t in lost <==> t in Elements(lost);
  }

  /** One more task lost; the code completes it before it drops the mapping, which is the same. */
  lemma LossExtends(v: View, u: View, lost: seq<string>, orders: seq<seq<string>>, t: string, order: seq<string>)
    requires v.Valid() && |orders| == |lost|
    requires PermittedRun(v, Losses(v, lost, orders)) && u == After(v, Losses(v, lost, orders))
    requires var b := OwnerOf(v, t);
      b in u.builds && (t in u.builds[b].shape.edges ==> IsListing(order, u.builds[b].shape.edges[t]))
    ensures var run := Losses(v, lost + [t], orders + [order]);
      && PermittedRun(v, run)
      && After(v, run) == Next(u, Report(OwnerOf(v, t), t, Failed, order)).(taskWorker := u.taskWorker - {t})
  {
    hide View.Valid, Finish, IsListing, PermittedRun, After, OwnerOf;
    var before, b := Losses(v, lost, orders), OwnerOf(v, t);
    var mid := Next(u, Forget(t));
    RunExtends(v, before, Forget(t));
    assert mid.builds == u.builds && t !in mid.taskWorker;
    RunExtends(v, before + [Forget(t)], Report(b, t, Failed, order));
    assert (lost + [t])[..|lost|] == lost && (orders + [order])[..|lost|] == orders;
    assert Losses(v, lost + [t], orders + [order]) == before + [Forget(t)] + [Report(b, t, Failed, order)];
  }
}
