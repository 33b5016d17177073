/** One scheduling cycle, on values: what it leaves behind when it is not interrupted. */
module ScheduleCycle {
  import opened Tasks
  import opened GraphSpec
  import opened Workers
  import opened SchedulerSpec

  /** If the task is Ready, no worker can take it. */
  ghost predicate Stuck(v: View, b: string, t: string)
    requires v.Valid()
  {
    v.Has(b, t) && v.State(b, t) == Ready ==> NoneAccepts(v.workers, v.builds[b].shape.need[t])
  }

  /** MarkReady would promote nothing. */
  ghost predicate Promoted(v: View, b: string)
    requires v.Valid() && b in v.builds
  {
    MarkReadyAll(v.builds[b].shape, v.builds[b].states) == v.builds[b].states
  }

  /** Nothing more can be done for these builds: no task is left to promote, and none that is
      Ready fits any worker; of one more build, only the tasks listed are still to be tried. */
  ghost predicate Served(v: View, done: set<string>, current: string, todo: seq<string>)
    requires v.Valid()
  {
    && (forall b :: b in v.builds && b in done ==> Promoted(v, b))
    && (forall b, t :: b in done && !(b == current && t in todo) ==> Stuck(v, b, t))
  }

  /** A second scan finds nothing to promote. */
  lemma ScanTwice(g: Shape, s: States)
    requires Fits(g, s)
    ensures MarkReadyAll(g, MarkReadyAll(g, s)) == MarkReadyAll(g, s)
  {
    var r := MarkReadyAll(g, s);
    forall x | x in s
      ensures MarkReadyAll(g, r)[x] == r[x]
    {
      if AllDepsPassed(g, r, x) {
        forall p | p in g.deps[x]
          ensures s[p] == Passed
        {
          assert g.Edge(p, x);
        }
      }
    }
  }

  lemma ScanServed(v: View, b: string, done: set<string>, todo: seq<string>)
    requires v.Valid() && b in v.builds && b !in done && Served(v, done, b, [])
    requires forall t :: t in Next(v, Scan(b)).builds[b].states && Next(v, Scan(b)).State(b, t) == Ready ==> t in todo
    ensures Next(v, Scan(b)).Valid() && Served(Next(v, Scan(b)), done + {b}, b, todo)
  {
    NextValid(v, Scan(b));
    ScanTwice(v.builds[b].shape, v.builds[b].states);
    hide MarkReadyAll, View.Valid;
    var u := Next(v, Scan(b));
    forall c, t | c in done + {b} && !(c == b && t in todo)
      ensures Stuck(u, c, t)
    {
      if c != b {
        assert Stuck(v, c, t);
      }
    }
  }

  lemma DispatchWorkers(v: View, a: Action)
    requires v.Valid() && a.Dispatch? && Permitted(v, a)
    ensures v.Has(a.build, a.task) && a.task in v.builds[a.build].shape.need
    ensures var m := v.builds[a.build].shape.need[a.task];
      && a.worker in v.workers && Accepts(v.workers[a.worker], m)
      && Next(v, a).workers == v.workers[a.worker := if a.delivered then Reserve(v.workers[a.worker], m)
                                                     else Release(Reserve(v.workers[a.worker], m), m)]
  {
  }

  lemma ReservedTakesNoMore(s: Slot, m: Need, n: Need)
    requires Accepts(s, m) && !Accepts(s, n)
    ensures !Accepts(Reserve(s, m), n)
  {
  }

  /** No slot grows by a dispatch, even one whose callback fails. */
  lemma DispatchKeepsNoneAccepting(v: View, a: Action, n: Need)
    requires v.Valid() && a.Dispatch? && Permitted(v, a) && NoneAccepts(v.workers, n)
    ensures NoneAccepts(Next(v, a).workers, n)
  {
    hide Next, Permitted, Accepts, Reserve, Release, View.Valid;
    DispatchWorkers(v, a);
    var s, m := v.workers[a.worker], v.builds[a.build].shape.need[a.task];
    ReleaseUndoesReserve(s, m);
    ReservedTakesNoMore(s, m, n);
  }

  lemma DispatchKeepsPromoted(g: Shape, s: States, t: string, to: TaskState)
    requires Fits(g, s) && MarkReadyAll(g, s) == s && t in s && s[t] == Ready
    requires to == Scheduled || to == Running
    ensures MarkReadyAll(g, s[t := to]) == s[t := to]
  {
    var r := s[t := to];
    forall x | x in s
      ensures MarkReadyAll(g, r)[x] == r[x]
    {
      if AllDepsPassed(g, r, x) {
        assert AllDepsPassed(g, s, x);
        assert MarkReadyAll(g, s)[x] == s[x];
      }
    }
  }

  function NeedOf(v: View, b: string, t: string): Need
    requires b in v.builds && t in v.builds[b].shape.need
  {
    v.builds[b].shape.need[t]
  }

  /** A dispatch writes the state of its own task, which is then no longer Ready. */
  lemma DispatchLeaves(v: View, a: Action, b: string, t: string)
    requires v.Valid() && a.Dispatch? && Permitted(v, a)
    ensures v.Has(a.build, a.task) && Next(v, a).builds.Keys == v.builds.Keys
    ensures Next(v, a).Has(b, t) <==> v.Has(b, t)
    ensures v.Has(b, t) ==>
      && Next(v, a).builds[b].shape == v.builds[b].shape && t in v.builds[b].shape.need
      && if b == a.build && t == a.task then Next(v, a).State(b, t) != Ready
         else Next(v, a).State(b, t) == v.State(b, t)
  {
    hide Reserve, Release;
  }

  lemma DispatchStuck(v: View, a: Action, b: string, t: string)
    requires v.Valid() && a.Dispatch? && Permitted(v, a)
    requires Stuck(v, b, t) || (b == a.build && t == a.task)
    ensures Next(v, a).Valid() && Stuck(Next(v, a), b, t)
  {
    hide Next, Permitted, View.Valid, NoneAccepts;
    NextValid(v, a);
    DispatchLeaves(v, a, b, t);
    if v.Has(b, t) && !(b == a.build && t == a.task) && v.State(b, t) == Ready {
      DispatchKeepsNoneAccepting(v, a, NeedOf(v, b, t));
    }
  }

  lemma DispatchPromoted(v: View, a: Action, b: string)
    requires v.Valid() && a.Dispatch? && Permitted(v, a) && b in v.builds && Promoted(v, b)
    ensures Next(v, a).Valid() && b in Next(v, a).builds && Promoted(Next(v, a), b)
  {
    NextValid(v, a);
    if b == a.build {
      DispatchKeepsPromoted(v.builds[b].shape, v.builds[b].states, a.task, if a.delivered then Running else Scheduled);
    }
  }

  lemma DispatchServed(v: View, a: Action, done: set<string>, todo: seq<string>)
    requires v.Valid() && a.Dispatch? && Permitted(v, a)
    requires todo != [] && todo[0] == a.task && Served(v, done, a.build, todo)
    ensures Next(v, a).Valid() && Served(Next(v, a), done, a.build, todo[1..])
  {
    hide View.Valid, Next, Permitted, Stuck, Promoted;
    NextValid(v, a);
    DispatchLeaves(v, a, a.build, a.task);
    forall b | b in v.builds && b in done
      ensures Promoted(Next(v, a), b)
    {
      DispatchPromoted(v, a, b);
    }
    forall b, t | b in done && !(b == a.build && t in todo[1..])
      ensures Stuck(Next(v, a), b, t)
    {
      DispatchStuck(v, a, b, t);
    }
  }

  lemma RefusedServed(v: View, b: string, done: set<string>, todo: seq<string>)
    requires v.Valid() && todo != [] && Served(v, done, b, todo) && v.Has(b, todo[0])
    requires NoneAccepts(v.workers, v.builds[b].shape.need[todo[0]])
    ensures Served(v, done, b, todo[1..])
  {
  }

  lemma BuildServed(v: View, done: set<string>, b: string, c: string)
    requires v.Valid() && Served(v, done, b, [])
    ensures Served(v, done, c, [])
  {
  }

  /** How many tasks of the run reached their worker. */
  function Delivered(run: seq<Action>): nat {
    if run == [] then 0
    else Delivered(run[..|run| - 1]) + (if run[|run| - 1].Dispatch? && run[|run| - 1].delivered then 1 else 0)
  }

  /** Nothing but scans and dispatches. */
  predicate OnlyScheduling(run: seq<Action>) {
    forall i :: 0 <= i < |run| ==> run[i].Scan? || run[i].Dispatch?
  }

  lemma AfterExtends(v: View, run: seq<Action>, a: Action)
    requires v.Valid() && !a.Submit?
    ensures After(v, run + [a]) == Next(After(v, run), a)
  {
    assert (run + [a])[..|run|] == run;
  }

  /** A run goes on by an action that is permitted where it has got to. */
  lemma RunExtends(v: View, run: seq<Action>, a: Action)
    requires v.Valid() && PermittedRun(v, run) && Permitted(After(v, run), a)
    ensures PermittedRun(v, run + [a]) && After(v, run + [a]) == Next(After(v, run), a)
  {
    assert (run + [a])[..|run|] == run && (run + [a])[|run|] == a;
  }

  lemma SchedulingExtends(run: seq<Action>, a: Action)
    ensures Delivered(run + [a]) == Delivered(run) + (if a.Dispatch? && a.delivered then 1 else 0)
    ensures OnlyScheduling(run + [a]) <==> OnlyScheduling(run) && (a.Scan? || a.Dispatch?)
  {
    var longer := run + [a];
    assert longer[..|run|] == run && longer[|run|] == a;
    assert forall i :: 0 <= i < |run| ==> longer[i] == run[i];
  }

  lemma NothingRun(v: View)
    requires v.Valid()
    ensures PermittedRun(v, []) && After(v, []) == v
    ensures Delivered([]) == 0 && OnlyScheduling([]) && Served(v, {}, "", [])
  {
  }
}
