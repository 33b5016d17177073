/** What happens to one build in a run of the scheduler is a run of its graph, so that the theorems
    about graphs hold of it. */
module BuildRuns {
  import opened Tasks
  import opened GraphSpec
  import opened GraphInvariant
  import opened GraphRuns
  import opened SchedulerSpec
  import opened SchedulerInvariant
  import opened ScheduleCycle
  import opened Cycles

  /** What an action does to a build that is there already. */
  function EventsOf(a: Action, b: string): seq<Event> {
    match a
    case Scan(c) => if c == b then [MarkReady] else []
    case Dispatch(c, t, w, delivered) => if c != b then [] else if delivered then [Assign(t), Start(t)] else [Assign(t)]
    case Report(c, t, outcome, order) => if c == b then [Complete(t, outcome, order)] else []
    case CancelBuild(c) => if c == b then [Cancel] else []
    case _ => []
  }

  /** What a run of the scheduler has done to a build since it was submitted. */
  ghost function History(run: seq<Action>, b: string): seq<Event>
    decreases |run|
  {
    if run == [] || b !in After(EMPTY, run[..|run| - 1]).builds then []
    else History(run[..|run| - 1], b) + EventsOf(run[|run| - 1], b)
  }

  lemma OneEvent(g: Shape, s: States, e: Event)
    requires Fits(g, s)
    ensures Run(g, s, [e]) == Step(g, s, e)
  {
    assert [e][..0] == [] && Run(g, s, []) == s;
  }

  lemma TwoEvents(g: Shape, s: States, e: Event, f: Event)
    requires Fits(g, s)
    ensures Run(g, s, [e, f]) == Step(g, Step(g, s, e), f)
  {
    assert [e, f][..1] == [e];
    OneEvent(g, s, e);
  }

  lemma NoEvent(g: Shape, s: States)
    requires Fits(g, s)
    ensures Run(g, s, []) == s
  {
  }

  lemma DispatchEvents(g: Shape, s: States, t: string, delivered: bool)
    requires Fits(g, s) && t in s && s[t] == Ready
    ensures Run(g, s, if delivered then [Assign(t), Start(t)] else [Assign(t)])
            == s[t := if delivered then Running else Scheduled]
  {
    OneEvent(g, s, Assign(t));
    TwoEvents(g, s, Assign(t), Start(t));
    assert s[t := Scheduled][t := Running] == s[t := Running];
    hide Run;
  }

  /** The events of an action are legal, and do what the action does. */
  lemma EventsProject(v: View, a: Action, b: string)
    requires v.Valid() && Permitted(v, a) && b in v.builds
    ensures Fits(v.builds[b].shape, v.builds[b].states) && AllLegal(v.builds[b].shape, EventsOf(a, b))
    ensures Run(v.builds[b].shape, v.builds[b].states, EventsOf(a, b)) == Projected(v, a, b)
  {
    hide MarkReadyAll, Finish, CancelAll, Run, Cyclic;
    var g, s := v.builds[b].shape, v.builds[b].states;
    NoEvent(g, s);
    if a.Scan? && a.build == b {
      OneEvent(g, s, MarkReady);
    } else if a.Report? && a.build == b {
      OneEvent(g, s, Complete(a.task, a.outcome, a.order));
    } else if a.CancelBuild? && a.build == b {
      OneEvent(g, s, Cancel);
    } else if a.Dispatch? && a.build == b {
      DispatchEvents(g, s, a.task, a.delivered);
    }
  }

  ghost predicate IsRunOf(history: seq<Event>, build: BuildView) {
    && build.shape.Valid() && !Cyclic(build.shape) && AllLegal(build.shape, history)
    && Reached(build.shape, history) == build.states
  }

  lemma LegalConcat(g: Shape, a: seq<Event>, b: seq<Event>)
    requires AllLegal(g, a) && AllLegal(g, b)
    ensures AllLegal(g, a + b)
  {
    hide Legal;
  }

  lemma HistoryGoesOn(v: View, a: Action, b: string, history: seq<Event>)
    requires v.Valid() && Permitted(v, a) && b in v.builds && IsRunOf(history, v.builds[b])
    ensures b in Next(v, a).builds && IsRunOf(history + EventsOf(a, b), Next(v, a).builds[b])
  {
    hide Permitted, Next, View.Valid, Projected, AllLegal, Run, EventsOf, Cyclic, Shape.Valid;
    ProjectedStates(v, a, b);
    EventsProject(v, a, b);
    LegalConcat(v.builds[b].shape, history, EventsOf(a, b));
    RunConcat(v.builds[b].shape, Initial(v.builds[b].shape), history, EventsOf(a, b));
  }

  lemma HistoryStarts(v: View, a: Action, b: string)
    requires v.Valid() && Permitted(v, a) && b !in v.builds && b in Next(v, a).builds
    ensures IsRunOf([], Next(v, a).builds[b])
  {
    NewBuilds(v, a, b);
    NoEvent(a.view.shape, Initial(a.view.shape));
    hide Next;
  }

  /** Every build is where the legal run of its graph leads that the scheduler has made with it. */
  lemma {:induction false} BuildRun(run: seq<Action>, b: string)
    requires PermittedRun(EMPTY, run) && b in After(EMPTY, run).builds
    ensures IsRunOf(History(run, b), After(EMPTY, run).builds[b])
    decreases |run|
  {
    hide IsRunOf, Next, Permitted, EventsOf;
    if run != [] {
      var init, a := run[..|run| - 1], run[|run| - 1];
      LastStep(EMPTY, run);
      if b in After(EMPTY, init).builds {
        BuildRun(init, b);
        HistoryGoesOn(After(EMPTY, init), a, b, History(init, b));
      } else {
        HistoryStarts(After(EMPTY, init), a, b);
      }
    }
  }

  // ----- the theorems about graphs, of builds -----

  lemma AfterScan(build: BuildView, history: seq<Event>)
    requires IsRunOf(history, build) && MarkReadyAll(build.shape, build.states) == build.states
    ensures IsRunOf(history + [MarkReady], build)
  {
    assert (history + [MarkReady])[..|history|] == history;
    LegalConcat(build.shape, history, [MarkReady]);
    hide MarkReadyAll;
  }

  /** When nothing of a build can be promoted, as after every cycle that was not interrupted, and
      nothing is Ready or on a worker, it is finished exactly if no task is stranded. */
  lemma BuildAtRest(run: seq<Action>, b: string)
    requires PermittedRun(EMPTY, run) && b in After(EMPTY, run).builds
    requires Promoted(After(EMPTY, run), b) && Quiet(After(EMPTY, run).builds[b].states)
    ensures var build := After(EMPTY, run).builds[b];
      && Fits(build.shape, build.states)
      && (Finished(build.states) <==> forall p, c :: !Stranded(build.shape, build.states, p, c))
  {
    var build, history := After(EMPTY, run).builds[b], History(run, b);
    BuildRun(run, b);
    AfterScan(build, history);
    RestIff(build.shape, history + [MarkReady], |history|);
    hide After, PermittedRun, History, MarkReadyAll;
  }

  /** All that was reported of the build is that tasks Passed, Failed or timed out. */
  predicate SettledOnly(run: seq<Action>, b: string) {
    forall i :: 0 <= i < |run| && run[i].Report? && run[i].build == b ==> Settled(run[i].outcome)
  }

  lemma SettledConcat(a: seq<Event>, b: seq<Event>)
    requires OnlySettledReports(a) && OnlySettledReports(b)
    ensures OnlySettledReports(a + b)
  {
  }

  lemma EventsSettled(run: seq<Action>, b: string)
    requires SettledOnly(run, b)
    ensures OnlySettledReports([])
    ensures run != [] ==> SettledOnly(run[..|run| - 1], b) && OnlySettledReports(EventsOf(run[|run| - 1], b))
  {
  }

  lemma {:induction false} HistorySettled(run: seq<Action>, b: string)
    requires SettledOnly(run, b)
    ensures OnlySettledReports(History(run, b))
    decreases |run|
  {
    hide After, EventsOf, OnlySettledReports;
    EventsSettled(run, b);
    if run != [] {
      HistorySettled(run[..|run| - 1], b);
      SettledConcat(History(run[..|run| - 1], b), EventsOf(run[|run| - 1], b));
    }
  }

  /** Progress: such a build is then finished, if its graph leaves nothing behind. */
  lemma BuildFinishes(run: seq<Action>, b: string)
    requires PermittedRun(EMPTY, run) && b in After(EMPTY, run).builds && SettledOnly(run, b)
    requires Promoted(After(EMPTY, run), b) && Quiet(After(EMPTY, run).builds[b].states)
    requires After(EMPTY, run).builds[b].shape.Valid() && NothingLeftBehind(After(EMPTY, run).builds[b].shape)
    ensures Finished(After(EMPTY, run).builds[b].states)
  {
    var build, history := After(EMPTY, run).builds[b], History(run, b);
    BuildRun(run, b);
    HistorySettled(run, b);
    hide *;
    FinishedAtRest(build, history);
  }

  lemma FinishedAtRest(build: BuildView, history: seq<Event>)
    requires IsRunOf(history, build) && OnlySettledReports(history)
    requires MarkReadyAll(build.shape, build.states) == build.states && Quiet(build.states)
    requires NothingLeftBehind(build.shape)
    ensures Finished(build.states)
  {
    hide MarkReadyAll, NothingLeftBehind, AllLegal, Reached, Quiet, Finished, Cyclic, Shape.Valid;
    AfterScan(build, history);
    SettledConcat(history, [MarkReady]);
    RestMeansFinished(build.shape, history + [MarkReady], |history|);
  }

  /** The number of state changes of the tasks of a build, over all actions of a run. */
  ghost function Changes(run: seq<Action>, b: string): nat
    decreases |run|
  {
    if run == [] then 0
    else
      var v, u := After(EMPTY, run[..|run| - 1]), After(EMPTY, run);
      Changes(run[..|run| - 1], b)
        + if b in v.builds && b in u.builds then |Changed(v.builds[b].states, u.builds[b].states)| else 0
  }

  lemma CountLast(g: Shape, history: seq<Event>, e: Event)
    requires g.Valid()
    ensures ChangeCount(g, history + [e]) ==
            ChangeCount(g, history) + |Changed(Reached(g, history), Step(g, Reached(g, history), e))|
  {
    assert (history + [e])[..|history|] == history;
    hide Reached, Step, Changed;
  }

  /** The first of the events alone counts for as much. */
  lemma CountConcat(g: Shape, history: seq<Event>, more: seq<Event>)
    requires g.Valid() && |more| <= 2
    ensures more == [] ==> ChangeCount(g, history + more) == ChangeCount(g, history)
    ensures more != [] ==>
              ChangeCount(g, history) + |Changed(Reached(g, history), Step(g, Reached(g, history), more[0]))|
              <= ChangeCount(g, history + more)
  {
    hide ChangeCount, Reached, Step, Changed;
    if more == [] {
      assert history + more == history;
    } else {
      CountLast(g, history, more[0]);
      if |more| == 2 {
        CountLast(g, history + [more[0]], more[1]);
        assert history + more == history + [more[0]] + [more[1]];
      } else {
        assert more == [more[0]];
      }
    }
  }

  /** The first event of an action changes as many tasks as the action does. */
  lemma FirstEvent(v: View, a: Action, b: string)
    requires v.Valid() && Permitted(v, a) && b in v.builds
    ensures Fits(v.builds[b].shape, v.builds[b].states) && |EventsOf(a, b)| <= 2
    ensures var g, s := v.builds[b].shape, v.builds[b].states;
      && (EventsOf(a, b) == [] ==> Changed(s, Projected(v, a, b)) == {})
      && (EventsOf(a, b) != [] ==> Changed(s, Step(g, s, EventsOf(a, b)[0])) == Changed(s, Projected(v, a, b)))
  {
    hide View.Valid, Permitted, EventsOf, Projected, Run, Step, Changed, Shape.Valid;
    EventsProject(v, a, b);
    EventsAre(a, b);
    var g, s, events := v.builds[b].shape, v.builds[b].states, EventsOf(a, b);
    if |events| == 0 {
      NoEvent(g, s);
      NoneChanged(s);
    } else if |events| == 1 {
      OneEvent(g, s, events[0]);
      assert events == [events[0]];
    } else {
      DispatchIs(v, b, a.task, a.worker, true);
      DispatchEvents(g, s, a.task, true);
      AssignChanges(g, s, a.task);
    }
  }

  lemma NoneChanged(s: States)
    ensures Changed(s, s) == {}
  {
  }

  lemma EventsAre(a: Action, b: string)
    ensures |EventsOf(a, b)| <= 2
    ensures |EventsOf(a, b)| == 2 ==>
              a.Dispatch? && a.delivered && a.build == b && EventsOf(a, b) == [Assign(a.task), Start(a.task)]
  {
  }

  lemma AssignChanges(g: Shape, s: States, t: string)
    requires Fits(g, s) && t in s && s[t] == Ready
    ensures Changed(s, Step(g, s, Assign(t))) == Changed(s, s[t := Running])
  {
    assert Changed(s, s[t := Scheduled]) == {t} == Changed(s, s[t := Running]);
  }

  lemma ActionChanges(v: View, a: Action, b: string, history: seq<Event>)
    requires v.Valid() && Permitted(v, a) && b in v.builds && IsRunOf(history, v.builds[b])
    ensures ChangeCount(v.builds[b].shape, history + EventsOf(a, b)) >=
            ChangeCount(v.builds[b].shape, history) + |Changed(v.builds[b].states, Projected(v, a, b))|
  {
    hide View.Valid, Permitted, EventsOf, Projected, ChangeCount, Reached, Step, Changed, Cyclic, AllLegal;
    FirstEvent(v, a, b);
    CountConcat(v.builds[b].shape, history, EventsOf(a, b));
  }

  lemma {:induction false} ChangesCounted(run: seq<Action>, b: string)
    requires PermittedRun(EMPTY, run) && b in After(EMPTY, run).builds
    ensures After(EMPTY, run).builds[b].shape.Valid()
    ensures Changes(run, b) <= ChangeCount(After(EMPTY, run).builds[b].shape, History(run, b))
    decreases |run|
  {
    BuildRun(run, b);
    if run != [] {
      var init, a := run[..|run| - 1], run[|run| - 1];
      var v := After(EMPTY, init);
      LastStep(EMPTY, run);
      if b in v.builds {
        ChangesCounted(init, b);
        BuildRun(init, b);
        ProjectedStates(v, a, b);
        ActionChanges(v, a, b, History(init, b));
      } else {
        NoChanges(init, b);
      }
      hide Next, Permitted, EventsOf, ChangeCount, Projected, Changed;
    }
  }

  lemma {:induction false} NoChanges(run: seq<Action>, b: string)
    requires PermittedRun(EMPTY, run) && b !in After(EMPTY, run).builds
    ensures Changes(run, b) == 0
    decreases |run|
  {
    if run != [] {
      var init, a := run[..|run| - 1], run[|run| - 1];
      LastStep(EMPTY, run);
      if b in After(EMPTY, init).builds {
        ProjectedStates(After(EMPTY, init), a, b);
      }
      hide Next, Permitted;
      NoChanges(init, b);
    }
  }

  /** Termination: over every run of the scheduler, the tasks of a build of n tasks change state at
      most 4n times. */
  lemma BuildChangesBounded(run: seq<Action>, b: string)
    requires PermittedRun(EMPTY, run) && b in After(EMPTY, run).builds
    ensures Changes(run, b) <= 4 * |After(EMPTY, run).builds[b].shape.Ids()|
  {
    BuildRun(run, b);
    ChangesCounted(run, b);
    ChangesAreBounded(After(EMPTY, run).builds[b].shape, History(run, b));
  }
}
