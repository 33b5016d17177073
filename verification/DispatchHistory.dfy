/** Which tasks a run of the scheduler dispatches, when, and how often. */
module DispatchHistory {
  import opened Tasks
  import opened GraphSpec
  import opened GraphInvariant
  import opened SchedulerSpec
  import opened SchedulerInvariant

  predicate Dispatches(a: Action, b: string, t: string) {
    a.Dispatch? && a.build == b && a.task == t
  }

  /** The callback was called for this task somewhere in the run. */
  ghost predicate Dispatched(run: seq<Action>, b: string, t: string) {
    exists i :: 0 <= i < |run| && Dispatches(run[i], b, t)
  }

  /** The states that only a dispatched task can be in. */
  predicate SentOff(s: TaskState) {
    OnWorker(s) || Settled(s)
  }

  /** What one action may do to the state of one task. */
  predicate MovedBy(a: Action, b: string, t: string, from: TaskState, to: TaskState) {
    || from == to
    || (Dispatches(a, b, t) && from == Ready && OnWorker(to))
    || (!Dispatches(a, b, t) && CanMove(from, to) && !OnWorker(to))
  }

  lemma ScanMoves(g: Shape, s: States, a: Action, t: string)
    requires Inv(g, s) && t in s && a.Scan?
    ensures MovedBy(a, a.build, t, s[t], MarkReadyAll(g, s)[t])
  {
    MarkReadyInv(g, s);
  }

  lemma ReportMoves(g: Shape, s: States, a: Action, t: string)
    requires Inv(g, s) && t in s && a.Report? && GraphSpec.Legal(g, Complete(a.task, a.outcome, a.order))
    ensures MovedBy(a, a.build, t, s[t], Finish(g, s, a.task, a.outcome, a.order)[t])
  {
    hide Finish, Inv;
    FinishInv(g, s, a.task, a.outcome, a.order);
  }

  lemma CancelMoves(s: States, a: Action, t: string)
    requires t in s && a.CancelBuild?
    ensures MovedBy(a, a.build, t, s[t], CancelAll(s)[t])
  {
  }

  lemma ProjectedMoves(v: View, a: Action, b: string, t: string)
    requires Reachable(v) && Permitted(v, a) && v.Has(b, t)
    ensures MovedBy(a, b, t, v.State(b, t), Projected(v, a, b)[t])
  {
    hide MarkReadyAll, Finish, CancelAll, Inv, GraphSpec.Legal;
    var g, s := v.builds[b].shape, v.builds[b].states;
    if a.Scan? && a.build == b {
      ScanMoves(g, s, a, t);
    } else if a.Report? && a.build == b {
      ReportMoves(g, s, a, t);
    } else if a.CancelBuild? && a.build == b {
      CancelMoves(s, a, t);
    }
  }

  lemma ActionMoves(v: View, a: Action, b: string, t: string)
    requires Reachable(v) && Permitted(v, a) && v.Has(b, t)
    ensures Next(v, a).Has(b, t) && MovedBy(a, b, t, v.State(b, t), Next(v, a).State(b, t))
  {
    ProjectedStates(v, a, b);
    ProjectedMoves(v, a, b, t);
    hide Reachable, Permitted, Next, Projected, MovedBy;
  }

  lemma NewTasksPending(v: View, a: Action, b: string, t: string)
    requires v.Valid() && Permitted(v, a) && !v.Has(b, t) && Next(v, a).Has(b, t)
    ensures Next(v, a).State(b, t) == Pending
  {
    if Administrative(a) {
      AdministrativeKeepsBuilds(v, a);
    }
  }

  /** A task that has been dispatched has left Ready behind; one that shows signs of having
      been sent off was dispatched. */
  ghost predicate HistoryAgrees(run: seq<Action>, v: View) {
    && (forall b, t :: Dispatched(run, b, t) ==> v.Has(b, t) && v.State(b, t) != Pending && v.State(b, t) != Ready)
    && (forall b, t :: v.Has(b, t) && SentOff(v.State(b, t)) ==> Dispatched(run, b, t))
  }

  lemma DispatchedExtends(run: seq<Action>, a: Action, b: string, t: string)
    ensures Dispatched(run + [a], b, t) <==> Dispatched(run, b, t) || Dispatches(a, b, t)
  {
    if Dispatched(run, b, t) {
      var i :| 0 <= i < |run| && Dispatches(run[i], b, t);
      assert (run + [a])[i] == run[i];
    }
    assert (run + [a])[|run|] == a;
  }

  lemma HistoryStep(run: seq<Action>, v: View, a: Action)
    requires Reachable(v) && Permitted(v, a) && HistoryAgrees(run, v)
    ensures HistoryAgrees(run + [a], Next(v, a))
  {
    hide Reachable, Permitted, Next, View.Valid, Dispatched, Dispatches;
    ReachableValid(v);
    var u := Next(v, a);
    forall b, t | Dispatched(run + [a], b, t)
      ensures u.Has(b, t) && u.State(b, t) != Pending && u.State(b, t) != Ready
    {
      DispatchedExtends(run, a, b, t);
      HistoryStepDispatched(run, v, a, b, t);
    }
    forall b, t | u.Has(b, t) && SentOff(u.State(b, t))
      ensures Dispatched(run + [a], b, t)
    {
      DispatchedExtends(run, a, b, t);
      HistoryStepSent(run, v, a, b, t);
    }
  }

  lemma HistoryStepDispatched(run: seq<Action>, v: View, a: Action, b: string, t: string)
    requires Reachable(v) && Permitted(v, a) && HistoryAgrees(run, v)
    requires Dispatched(run, b, t) || Dispatches(a, b, t)
    ensures var u := Next(v, a); u.Has(b, t) && u.State(b, t) != Pending && u.State(b, t) != Ready
  {
    if Dispatches(a, b, t) {
      assert v.State(b, t) == Ready;
    } else {
      ActionMoves(v, a, b, t);
      TransitionsClimb(v.State(b, t), Next(v, a).State(b, t));
    }
  }

  lemma SentOffBefore(a: Action, b: string, t: string, from: TaskState, to: TaskState)
    requires MovedBy(a, b, t, from, to) && SentOff(to)
    ensures SentOff(from) || Dispatches(a, b, t)
  {
  }

  lemma HistoryStepSent(run: seq<Action>, v: View, a: Action, b: string, t: string)
    requires Reachable(v) && Permitted(v, a) && HistoryAgrees(run, v)
    requires Next(v, a).Has(b, t) && SentOff(Next(v, a).State(b, t))
    ensures Dispatched(run, b, t) || Dispatches(a, b, t)
  {
    hide Reachable, Permitted, Next, View.Valid;
    ReachableValid(v);
    var u := Next(v, a);
    if v.Has(b, t) {
      ActionMoves(v, a, b, t);
      SentOffBefore(a, b, t, v.State(b, t), u.State(b, t));
    } else {
      NewTasksPending(v, a, b, t);
    }
  }

  lemma NothingDispatched()
    ensures Reachable(EMPTY) && HistoryAgrees([], EMPTY)
  {
    EmptySound();
  }

  lemma {:induction false} RunHistory(run: seq<Action>)
    requires PermittedRun(EMPTY, run)
    ensures Reachable(After(EMPTY, run)) && HistoryAgrees(run, After(EMPTY, run))
    decreases |run|
  {
    hide Next, Permitted, Reachable, HistoryAgrees, View.Valid;
    NothingDispatched();
    ReachableValid(EMPTY);
    if run != [] {
      var init, a := run[..|run| - 1], run[|run| - 1];
      LastStep(EMPTY, run);
      RunHistory(init);
      ReachableValid(After(EMPTY, init));
      NextReachable(After(EMPTY, init), a);
      HistoryStep(init, After(EMPTY, init), a);
      assert init + [a] == run;
    }
  }

  lemma DispatchedByThen(run: seq<Action>, i: nat, j: nat, b: string, t: string)
    requires i < j <= |run| && Dispatches(run[i], b, t)
    ensures Dispatched(run[..j], b, t)
  {
    assert run[..j][i] == run[i];
  }

  lemma NotYetDispatched(run: seq<Action>, j: nat, b: string, t: string)
    requires PermittedRun(EMPTY, run) && j < |run| && Dispatches(run[j], b, t)
    ensures !Dispatched(run[..j], b, t)
  {
    PrefixPermitted(EMPTY, run, j);
    RunHistory(run[..j]);
  }

  /** Over every run, whether or not builds share task ids, the callback is called at most once
      for each task of each build. */
  lemma DispatchedOnce(run: seq<Action>, i: nat, j: nat, b: string, t: string)
    requires PermittedRun(EMPTY, run) && i < |run| && j < |run|
    requires Dispatches(run[i], b, t) && Dispatches(run[j], b, t)
    ensures i == j
  {
    if i < j {
      DispatchedByThen(run, i, j, b, t);
      NotYetDispatched(run, j, b, t);
    } else if j < i {
      DispatchedByThen(run, j, i, b, t);
      NotYetDispatched(run, i, b, t);
    }
  }

  lemma ParentsOfReady(run: seq<Action>, v: View, b: string, t: string, p: string)
    requires Reachable(v) && HistoryAgrees(run, v) && v.Has(b, t)
    requires v.State(b, t) == Ready && v.builds[b].shape.Edge(p, t)
    ensures v.Has(b, p) && v.State(b, p).IsTerminal() && t in v.builds[b].shape.policy
    ensures v.builds[b].shape.policy[t] == OnSuccess ==> v.State(b, p) == Passed && Dispatched(run, b, p)
  {
    assert Inv(v.builds[b].shape, v.builds[b].states) && Launched(v.State(b, t));
    assert v.builds[b].shape.Default(t) <==> v.builds[b].shape.policy[t] == OnSuccess;
    hide Dispatched;
  }

  /** What holds of a task's parents at the moment it is dispatched. */
  lemma DispatchedAfterParents(run: seq<Action>, j: nat, b: string, t: string, p: string)
    requires PermittedRun(EMPTY, run) && j < |run| && Dispatches(run[j], b, t)
    requires var v := After(EMPTY, run[..j]); b in v.builds && v.builds[b].shape.Edge(p, t)
    ensures var v := After(EMPTY, run[..j]);
      && v.Has(b, p) && v.Has(b, t) && v.State(b, p).IsTerminal()
      && (v.builds[b].shape.policy[t] == OnSuccess ==> v.State(b, p) == Passed && Dispatched(run[..j], b, p))
  {
    PrefixPermitted(EMPTY, run, j);
    RunHistory(run[..j]);
    assert After(EMPTY, run[..j]).Has(b, t) && After(EMPTY, run[..j]).State(b, t) == Ready;
    hide Permitted, After, PermittedRun, Reachable, HistoryAgrees;
    ParentsOfReady(run[..j], After(EMPTY, run[..j]), b, t, p);
  }

  /** An on_failure task with parents is dispatched only when one of them failed or timed out. */
  lemma DispatchedOnFailure(run: seq<Action>, j: nat, b: string, t: string) returns (p: string)
    requires PermittedRun(EMPTY, run) && j < |run| && Dispatches(run[j], b, t)
    requires var v := After(EMPTY, run[..j]);
      b in v.builds && t in v.builds[b].shape.policy && t in v.builds[b].shape.deps
      && v.builds[b].shape.policy[t] == OnFailure && v.builds[b].shape.deps[t] != {}
    ensures var v := After(EMPTY, run[..j]);
      v.builds[b].shape.Edge(p, t) && v.Has(b, p) && v.State(b, p).IsBroken()
  {
    PrefixPermitted(EMPTY, run, j);
    RunHistory(run[..j]);
    var v := After(EMPTY, run[..j]);
    var g, s := v.builds[b].shape, v.builds[b].states;
    assert Launched(s[t]) && AnyDepFailed(g, s, t);
    p :| p in g.deps[t] && s[p].IsBroken();
  }
}
