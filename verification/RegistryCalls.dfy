/** Calls on the registry (pkg/worker/registry.go) that a scheduler shares, as its actions. */
module RegistryCalls {
  import opened Tasks
  import opened Workers
  import opened SchedulerSpec
  import opened ScheduleCycle
  import opened Schedulers

  /** What is known of a scheduler when a call on its registry begins. */
  lemma AboutScheduler(s: Scheduler)
    requires s.Valid()
    ensures s.registry.Valid() && s.Status().Valid() && s.Status().workers == s.registry.Slots()
    ensures s.registry.Slots().Keys == s.registry.workers.Keys
  {
    s.StatusValid();
  }

  method RegisterWorker(s: Scheduler, w: Info, now: int) returns (ok: bool)
    requires s.Valid()
    modifies s.registry, w
    ensures s.Valid() && old(s.Status()).Valid() && ok == (w.id != "")
    ensures s.Status() == if ok then Next(old(s.Status()), Register(w.id, old(w.Status()))) else old(s.Status())
  {
    hide Scheduler.Valid, Registry.Valid, Registry.Slots, View.Valid, Scheduler.Status, Scheduler.Builds,
         Scheduler.AllTasks, Scheduler.Graphs;
    AboutScheduler(s);
    ok := s.registry.Register(w, now);
    s.RegistryChanged();
  }

  method UnregisterWorker(s: Scheduler, w: string)
    requires s.Valid()
    modifies s.registry
    ensures s.Valid() && old(s.Status()).Valid()
    ensures s.Status() == Next(old(s.Status()), Unregister(w))
  {
    hide Scheduler.Valid, Registry.Valid, Registry.Slots, View.Valid, Scheduler.Status, Scheduler.Builds,
         Scheduler.AllTasks, Scheduler.Graphs;
    AboutScheduler(s);
    s.registry.Unregister(w);
    s.RegistryChanged();
  }

  method WorkerReports(s: Scheduler, w: string, cpu: uint32, memory: uint32, disk: uint32, running: uint32, now: int)
    returns (ok: bool)
    requires s.Valid()
    modifies s.registry.workers.Values
    ensures s.Valid() && old(s.Status()).Valid() && ok == (w in s.registry.workers)
    ensures s.Status() == Next(old(s.Status()), Heartbeat(w, cpu, memory, disk, running))
  {
    hide Scheduler.Valid, Registry.Valid, Registry.Slots, View.Valid, Scheduler.Status, Scheduler.Builds,
         Scheduler.AllTasks, Scheduler.Graphs, Beat;
    AboutScheduler(s);
    ok := s.registry.Heartbeat(w, cpu, memory, disk, running, now);
    s.RegistryChanged();
  }

  method DrainWorker(s: Scheduler, w: string) returns (ok: bool)
    requires s.Valid()
    modifies s.registry.workers.Values
    ensures s.Valid() && old(s.Status()).Valid() && ok == (w in s.registry.workers)
    ensures s.Status() == Next(old(s.Status()), SetState(w, Draining))
  {
    hide Scheduler.Valid, Registry.Valid, Registry.Slots, View.Valid, Scheduler.Status, Scheduler.Builds,
         Scheduler.AllTasks, Scheduler.Graphs;
    AboutScheduler(s);
    ok := s.registry.Drain(w);
    s.RegistryChanged();
  }

  // ----- workers declared dead -----

  ghost function Deaths(dead: seq<string>): (run: seq<Action>)
    ensures |run| == |dead|
  {
    seq(|dead|, i requires 0 <= i < |dead| => SetState(dead[i], Dead))
  }

  ghost function WithoutDead(v: View, dead: seq<string>): View {
    v.(workers := map w | w in v.workers :: if w in dead then v.workers[w].(state := Dead) else v.workers[w])
  }

  lemma OneMoreDead(v: View, dead: seq<string>, w: string)
    requires v.Valid()
    ensures WithoutDead(v, dead).Valid() && Permitted(WithoutDead(v, dead), SetState(w, Dead))
    ensures Next(WithoutDead(v, dead), SetState(w, Dead)) == WithoutDead(v, dead + [w])
  {
    hide View.Valid, Next;
    BuildsValid(v, WithoutDead(v, dead));
    SetStateIs(WithoutDead(v, dead), w, Dead);
    assert forall x :: x in dead + [w] <==> x in dead || x == w;
  }

  lemma SetStateIs(v: View, w: string, state: WorkerState)
    requires v.Valid()
    ensures Permitted(v, SetState(w, state))
    ensures Next(v, SetState(w, state)) == if w in v.workers then v.WithSlot(w, v.workers[w].(state := state)) else v
  {
  }

  lemma BuildsValid(v: View, u: View)
    requires v.Valid() && u.builds == v.builds
    ensures u.Valid()
  {
  }

  lemma {:induction false} DeathsAre(v: View, dead: seq<string>)
    requires v.Valid()
    ensures PermittedRun(v, Deaths(dead)) && After(v, Deaths(dead)) == WithoutDead(v, dead)
    decreases |dead|
  {
    hide View.Valid, PermittedRun, After, Next, Permitted, WithoutDead;
    NothingRun(v);
    if dead == [] {
      NoneDead(v);
    } else {
      var init, w := dead[..|dead| - 1], dead[|dead| - 1];
      DeathsAre(v, init);
      OneMoreDead(v, init, w);
      RunExtends(v, Deaths(init), SetState(w, Dead));
      assert Deaths(init) + [SetState(w, Dead)] == Deaths(dead) && init + [w] == dead;
    }
  }

  lemma NoneDead(v: View)
    ensures WithoutDead(v, []) == v
  {
    assert (map w | w in v.workers :: v.workers[w]) == v.workers;
  }

  /** The workers that have been silent for too long are declared dead, one by one. */
  method CheckWorkers(s: Scheduler, now: int) returns (dead: seq<string>)
    requires s.Valid()
    modifies s.registry.workers.Values`state
    ensures s.Valid() && old(s.Status()).Valid()
    ensures PermittedRun(old(s.Status()), Deaths(dead)) && s.Status() == After(old(s.Status()), Deaths(dead))
  {
    hide Scheduler.Valid, Registry.Valid, Registry.Slots, View.Valid, Scheduler.Status, Scheduler.Builds,
         Scheduler.AllTasks, Scheduler.Graphs, PermittedRun, After;
    AboutScheduler(s);
    dead := s.registry.CheckHeartbeats(now);
    s.RegistryChanged();
    DeathsAre(old(s.Status()), dead);
  }
}
