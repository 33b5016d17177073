/** Conservation of worker capacity over runs of the scheduler. */
module CapacityLedger {
  import opened Collections
  import opened Tasks
  import opened GraphSpec
  import opened Workers
  import opened SchedulerSpec
  import opened SchedulerInvariant

  datatype Resource = Cpu | Memory | Disk | TaskSlots

  function Amount(n: Need, r: Resource): nat {
    match r
    case Cpu => n.cpu
    case Memory => n.memory
    case Disk => n.disk
    case TaskSlots => 1
  }

  /** What is free on a worker; for task slots, counted down from zero. */
  function Free(w: Slot, r: Resource): int {
    match r
    case Cpu => w.cpu
    case Memory => w.memory
    case Disk => w.disk
    case TaskSlots => 0 - w.running
  }

  /** What a mapped task asked for. */
  ghost function NeedOf(v: View, t: string): Need
    requires v.Valid()
  {
    if t in v.taskBuild && v.Has(v.taskBuild[t], t) then v.builds[v.taskBuild[t]].shape.need[t]
    else Need(0, 0, 0)
  }

  /** The needs of the tasks mapped to a worker. */
  ghost function Loads(v: View, w: string, r: Resource): map<string, int>
    requires v.Valid()
  {
    map t | t in v.taskWorker && v.taskWorker[t] == w :: Amount(NeedOf(v, t), r)
  }

  /** What is free plus what is in use. */
  ghost function Ledger(v: View, w: string, r: Resource): int
    requires v.Valid() && w in v.workers
  {
    Free(v.workers[w], r) + Total(Loads(v, w, r))
  }

  /** Below this, no uint32 addition can wrap, and no task count can fall below zero. */
  predicate Within(total: int, r: Resource) {
    if r == TaskSlots then total <= 0 else total < 0x1_0000_0000
  }

  /** The action leaves the worker's own registration and reports alone. */
  predicate Undisturbed(a: Action, w: string) {
    !((a.Register? || a.Unregister? || a.Heartbeat?) && a.worker == w)
  }

  /** How far a release falls short of what it should give back: a sum past the end of uint32
      wraps around, and a task count of zero stays as it is. */
  function Slip(s: Slot, n: Need, r: Resource): int {
    if r == TaskSlots then (if s.running == 0 then 0 - 1 else 0)
    else if Free(s, r) + Amount(n, r) >= 0x1_0000_0000 then 0 - 0x1_0000_0000
    else 0
  }

  ghost predicate MappedTo(v: View, t: string, w: string) {
    t in v.taskWorker && v.taskWorker[t] == w
  }

  /** What an action adds to the ledger: a failed dispatch leaks the need of its task, declaring a
      worker dead writes off the needs of the tasks it was running, and a release may slip. */
  ghost function Leak(v: View, a: Action, w: string, r: Resource): int
    requires v.Valid()
  {
    if a.Dispatch? && a.worker == w && !a.delivered then Amount(NeedOf(v, a.task), r)
    else if a.Forget? && MappedTo(v, a.task, w) then 0 - Amount(NeedOf(v, a.task), r)
    else if a.Return? && MappedTo(v, a.task, w) && w in v.workers then Slip(v.workers[w], NeedOf(v, a.task), r)
    else 0
  }

  lemma {:induction false} TotalNonNegative(m: map<string, int>)
    requires forall k :: k in m ==> m[k] >= 0
    ensures Total(m) >= 0
    decreases |m|
  {
    if m != map[] {
      var k :| k in m && Total(m) == m[k] + Total(m - {k});
      TotalNonNegative(m - {k});
    }
  }

  lemma ReleaseSlips(s: Slot, n: Need, r: Resource)
    ensures Free(Release(s, n), r) == Free(s, r) + Amount(n, r) + Slip(s, n, r)
    ensures Within(Free(s, r) + Amount(n, r), r) ==> Slip(s, n, r) == 0
  {
  }

  /** Accepting a task never wraps: what is taken is available. */
  lemma ReserveIsExact(s: Slot, n: Need, r: Resource)
    requires Accepts(s, n)
    ensures Free(Reserve(s, n), r) == Free(s, r) - Amount(n, r)
  {
  }

  /** A mapped task's need is part of the ledger, so while that is within bounds, giving it back
      cannot wrap, and the guard on the task count does not fire. */
  lemma ReturnIsExact(v: View, w: string, t: string, r: Resource)
    requires v.Valid() && w in v.workers && MappedTo(v, t, w) && Within(Ledger(v, w, r), r)
    ensures var n := NeedOf(v, t);
      && Slip(v.workers[w], n, r) == 0
      && Free(Release(v.workers[w], n), r) == Free(v.workers[w], r) + Amount(n, r)
  {
    hide View.Valid, NeedOf, Slip, Release, Within, Free, Amount;
    var n := NeedOf(v, t);
    LoadIsPart(v, w, t, r);
    WithinBelow(Ledger(v, w, r), Free(v.workers[w], r) + Amount(n, r), r);
    ReleaseSlips(v.workers[w], n, r);
  }

  lemma LoadIsPart(v: View, w: string, t: string, r: Resource)
    requires v.Valid() && MappedTo(v, t, w)
    ensures Amount(NeedOf(v, t), r) <= Total(Loads(v, w, r))
  {
    var loads := Loads(v, w, r);
    assert loads[t] == Amount(NeedOf(v, t), r);
    TotalRemove(loads, t);
    TotalNonNegative(loads - {t});
    hide NeedOf;
  }

  lemma WithinBelow(a: int, b: int, r: Resource)
    requires Within(a, r) && b <= a
    ensures Within(b, r)
  {
  }

  lemma BuildFits(v: View, b: string)
    requires v.Valid() && b in v.builds
    ensures Fits(v.builds[b].shape, v.builds[b].states)
  {
  }

  lemma BuildKept(v: View, a: Action, b: string)
    requires v.Valid() && b in v.builds
    ensures var u := Next(v, a);
      b in u.builds && u.builds[b].shape == v.builds[b].shape && u.builds[b].states.Keys == v.builds[b].states.Keys
  {
    hide View.Valid, Finish, MarkReadyAll, CancelAll, Initial, Reserve, Release, Beat;
    BuildFits(v, b);
  }

  lemma OwnerKept(v: View, a: Action, t: string)
    requires v.Valid() && Permitted(v, a) && FreshIds(v, a) && t in v.taskBuild
    ensures t in Next(v, a).taskBuild && Next(v, a).taskBuild[t] == v.taskBuild[t]
  {
    hide View.Valid;
  }

  /** Needs are fixed once a build is submitted. */
  lemma NeedKept(v: View, a: Action, t: string)
    requires v.Valid() && Permitted(v, a) && FreshIds(v, a) && Next(v, a).Valid()
    requires t in v.taskBuild && v.Has(v.taskBuild[t], t)
    ensures NeedOf(Next(v, a), t) == NeedOf(v, t)
  {
    BuildKept(v, a, v.taskBuild[t]);
    OwnerKept(v, a, t);
    hide Next, Permitted, View.Valid;
  }

  lemma NeedsKept(v: View, a: Action)
    requires Sound(v) && Permitted(v, a) && FreshIds(v, a)
    ensures Next(v, a).Valid() && forall t :: t in v.taskWorker ==> NeedOf(Next(v, a), t) == NeedOf(v, t)
  {
    NextSound(v, a);
    var u := Next(v, a);
    forall t | t in v.taskWorker
      ensures NeedOf(u, t) == NeedOf(v, t)
    {
      NeedKept(v, a, t);
    }
  }

  /** Loads follow the mapping. */
  lemma LoadsFollow(v: View, u: View, w: string, r: Resource, expected: map<string, int>)
    requires v.Valid() && u.Valid()
    requires forall t :: t in u.taskWorker && u.taskWorker[t] == w <==> t in expected
    requires forall t :: t in expected ==> NeedOf(u, t) == NeedOf(v, t) && expected[t] == Amount(NeedOf(v, t), r)
    ensures Loads(u, w, r) == expected
  {
  }

  /** An action that leaves the mapping alone leaves every load alone. */
  lemma LoadsKept(v: View, a: Action, w: string, r: Resource)
    requires Sound(v) && Permitted(v, a) && FreshIds(v, a) && Next(v, a).taskWorker == v.taskWorker
    ensures Next(v, a).Valid() && Loads(Next(v, a), w, r) == Loads(v, w, r)
  {
    NeedsKept(v, a);
    hide Next, Sound, Permitted, NeedOf;
    LoadsFollow(v, Next(v, a), w, r, Loads(v, w, r));
  }

  lemma DispatchMapping(v: View, a: Action)
    requires Sound(v) && Permitted(v, a) && a.Dispatch?
    ensures a.task !in v.taskWorker && Next(v, a).taskWorker == v.taskWorker[a.task := a.worker]
    ensures Next(v, a).Valid() && NeedOf(Next(v, a), a.task) == NeedOf(v, a.task)
  {
    NeedsKept(v, a);
    assert v.Has(a.build, a.task) && v.taskBuild[a.task] == a.build;
    NeedKept(v, a, a.task);
    if a.task in v.taskWorker {
      MappedState(v, a.build, a.task);
      assert false;
    }
    hide NeedOf;
  }

  lemma DispatchLoads(v: View, a: Action, w: string, r: Resource)
    requires Sound(v) && Permitted(v, a) && a.Dispatch?
    ensures a.task !in v.taskWorker && Next(v, a).Valid()
    ensures Loads(Next(v, a), w, r) ==
            if a.worker == w then Loads(v, w, r)[a.task := Amount(NeedOf(v, a.task), r)] else Loads(v, w, r)
  {
    hide Next, Permitted, NeedOf, Sound, View.Valid;
    SoundValid(v);
    NeedsKept(v, a);
    DispatchMapping(v, a);
    var loads := Loads(v, w, r);
    LoadsFollow(v, Next(v, a), w, r, if a.worker == w then loads[a.task := Amount(NeedOf(v, a.task), r)] else loads);
  }

  lemma DispatchSlot(v: View, a: Action, w: string, r: Resource)
    requires Sound(v) && Permitted(v, a) && a.Dispatch? && w in v.workers
    ensures w in Next(v, a).workers
    ensures Free(Next(v, a).workers[w], r) == Free(v.workers[w], r)
              - (if a.worker == w && a.delivered then Amount(NeedOf(v, a.task), r) else 0)
  {
    var n := v.builds[a.build].shape.need[a.task];
    assert v.Has(a.build, a.task) && v.taskBuild[a.task] == a.build;
    if a.worker == w {
      ReserveIsExact(v.workers[w], n, r);
      ReleaseUndoesReserve(v.workers[w], n);
    }
  }

  lemma DispatchLedger(v: View, a: Action, w: string, r: Resource)
    requires Sound(v) && Permitted(v, a) && a.Dispatch? && w in v.workers
    ensures Next(v, a).Valid() && w in Next(v, a).workers
    ensures Ledger(Next(v, a), w, r) == Ledger(v, w, r) + Leak(v, a, w, r)
  {
    hide Next, Sound, Permitted, NeedOf, View.Valid, Amount, Free;
    SoundValid(v);
    DispatchLoads(v, a, w, r);
    DispatchSlot(v, a, w, r);
    assert a.task !in Loads(v, w, r);
    TotalUpdate(Loads(v, w, r), a.task, Amount(NeedOf(v, a.task), r));
  }

  lemma Unmapped(v: View, a: Action)
    requires v.Valid() && Permitted(v, a) && (a.Return? || a.Forget?)
    ensures Next(v, a).taskWorker == v.taskWorker - {a.task}
  {
    hide View.Valid;
    if a.task !in v.taskWorker {
      assert v.taskWorker - {a.task} == v.taskWorker;
    }
  }

  lemma UnmapLoads(v: View, a: Action, w: string, r: Resource)
    requires Sound(v) && Permitted(v, a) && (a.Return? || a.Forget?)
    ensures Next(v, a).Valid() && Loads(Next(v, a), w, r) == Loads(v, w, r) - {a.task}
  {
    NeedsKept(v, a);
    Unmapped(v, a);
    var u := Next(v, a);
    hide Next, Sound, Permitted, NeedOf;
    LoadsFollow(v, u, w, r, Loads(v, w, r) - {a.task});
  }

  lemma OwnNeed(v: View, b: string, t: string)
    requires Sound(v) && v.Has(b, t)
    ensures NeedOf(v, t) == v.builds[b].shape.need[t]
  {
    assert v.taskBuild[t] == b;
  }

  lemma UnmapReleases(v: View, a: Action, w: string)
    requires Sound(v) && Permitted(v, a) && (a.Return? || a.Forget?) && w in v.workers
    ensures w in Next(v, a).workers
    ensures Next(v, a).workers[w] ==
      if a.Return? && MappedTo(v, a.task, w) then Release(v.workers[w], NeedOf(v, a.task)) else v.workers[w]
  {
    hide Sound, NeedOf, Release, View.Valid;
    SoundValid(v);
    if a.Return? {
      OwnNeed(v, a.build, a.task);
    }
  }

  lemma UnmapSlot(v: View, a: Action, w: string, r: Resource)
    requires Sound(v) && Permitted(v, a) && (a.Return? || a.Forget?) && w in v.workers
    ensures w in Next(v, a).workers
    ensures Free(Next(v, a).workers[w], r) == Free(v.workers[w], r) + Leak(v, a, w, r)
              + (if MappedTo(v, a.task, w) then Amount(NeedOf(v, a.task), r) else 0)
  {
    hide Sound, NeedOf, Next, Permitted, Free, Release, Amount, Slip, View.Valid;
    SoundValid(v);
    UnmapReleases(v, a, w);
    ReleaseSlips(v.workers[w], NeedOf(v, a.task), r);
  }

  lemma LoadWithout(v: View, w: string, t: string, r: Resource)
    requires v.Valid()
    ensures Total(Loads(v, w, r) - {t}) == Total(Loads(v, w, r))
              - (if MappedTo(v, t, w) then Amount(NeedOf(v, t), r) else 0)
  {
    var loads := Loads(v, w, r);
    assert t in loads ==> loads[t] == Amount(NeedOf(v, t), r);
    if t in loads {
      TotalRemove(loads, t);
    } else {
      assert loads - {t} == loads;
    }
  }

  lemma UnmapLedger(v: View, a: Action, w: string, r: Resource)
    requires Sound(v) && Permitted(v, a) && (a.Return? || a.Forget?) && w in v.workers
    ensures Next(v, a).Valid() && w in Next(v, a).workers
    ensures Ledger(Next(v, a), w, r) == Ledger(v, w, r) + Leak(v, a, w, r)
  {
    hide Sound, NeedOf, Next, Permitted, Free, Loads, Leak, Amount, View.Valid;
    SoundValid(v);
    UnmapLoads(v, a, w, r);
    UnmapSlot(v, a, w, r);
    LoadWithout(v, w, a.task, r);
  }

  lemma OtherLedger(v: View, a: Action, w: string, r: Resource)
    requires Sound(v) && Permitted(v, a) && FreshIds(v, a) && !a.Dispatch? && !a.Return? && !a.Forget?
    requires Undisturbed(a, w) && w in v.workers
    ensures Next(v, a).Valid() && w in Next(v, a).workers
    ensures Ledger(Next(v, a), w, r) == Ledger(v, w, r)
  {
    OtherSlot(v, a, w, r);
    LoadsKept(v, a, w, r);
    hide *;
  }

  lemma OtherSlot(v: View, a: Action, w: string, r: Resource)
    requires v.Valid() && !a.Dispatch? && !a.Return? && !a.Forget?
    requires Undisturbed(a, w) && w in v.workers
    ensures w in Next(v, a).workers && Free(Next(v, a).workers[w], r) == Free(v.workers[w], r)
    ensures Next(v, a).taskWorker == v.taskWorker
  {
  }

  /** One action changes the ledger of a worker by its leak, which is mostly nothing. */
  lemma LedgerStep(v: View, a: Action, w: string, r: Resource)
    requires Sound(v) && Permitted(v, a) && FreshIds(v, a) && Undisturbed(a, w) && w in v.workers
    ensures Sound(Next(v, a)) && w in Next(v, a).workers
    ensures Ledger(Next(v, a), w, r) == Ledger(v, w, r) + Leak(v, a, w, r)
  {
    NextSound(v, a);
    hide Next, Sound, Permitted, Ledger, FreshIds;
    if a.Dispatch? {
      DispatchLedger(v, a, w, r);
    } else if a.Return? || a.Forget? {
      UnmapLedger(v, a, w, r);
    } else {
      OtherLedger(v, a, w, r);
    }
  }

  /** The leaks of a run, added up. */
  ghost function TotalLeak(v: View, run: seq<Action>, w: string, r: Resource): int
    requires v.Valid()
    decreases |run|
  {
    if run == [] then 0
    else
      var init := run[..|run| - 1];
      TotalLeak(v, init, w, r) + Leak(After(v, init), run[|run| - 1], w, r)
  }

  /** The worker is neither registered anew nor reports. */
  predicate AllUndisturbed(run: seq<Action>, w: string) {
    forall i :: 0 <= i < |run| ==> Undisturbed(run[i], w)
  }

  /** Conservation: what was free at the start, plus what was in use, plus what leaked, is what
      is free now plus what is in use now. */
  lemma {:induction false} Conserved(v: View, run: seq<Action>, w: string, r: Resource)
    requires Sound(v) && PermittedRun(v, run) && UniqueIds(v, run) && w in v.workers && AllUndisturbed(run, w)
    ensures Sound(After(v, run)) && w in After(v, run).workers
    ensures Ledger(After(v, run), w, r) == Ledger(v, w, r) + TotalLeak(v, run, w, r)
    decreases |run|
  {
    if run != [] {
      var init := run[..|run| - 1];
      LastStep(v, run);
      Conserved(v, init, w, r);
      LedgerStep(After(v, init), run[|run| - 1], w, r);
    }
  }

  // ----- runs that lose nothing -----

  /** The action is no failed dispatch to the worker, and gives up no task of it as dead. */
  ghost predicate Loses(v: View, a: Action, w: string) {
    (a.Dispatch? && a.worker == w && !a.delivered) || (a.Forget? && MappedTo(v, a.task, w))
  }

  /** Every dispatch to the worker is delivered, and it is not declared dead. */
  ghost predicate Lossless(v: View, run: seq<Action>, w: string)
    requires v.Valid()
    decreases |run|
  {
    run == [] ||
    var init, a := run[..|run| - 1], run[|run| - 1];
    Undisturbed(a, w) && !Loses(After(v, init), a, w) && Lossless(v, init, w)
  }

  lemma {:induction false} LosslessUndisturbed(v: View, run: seq<Action>, w: string)
    requires v.Valid() && Lossless(v, run, w)
    ensures AllUndisturbed(run, w)
    decreases |run|
  {
    if run != [] {
      LosslessUndisturbed(v, run[..|run| - 1], w);
    }
  }

  lemma {:induction false} LosslessPrefix(v: View, run: seq<Action>, w: string, j: nat)
    requires v.Valid() && Lossless(v, run, w) && UniqueIds(v, run) && j < |run|
    ensures Lossless(v, run[..j], w) && UniqueIds(v, run[..j])
    ensures Undisturbed(run[j], w) && !Loses(After(v, run[..j]), run[j], w) && FreshIds(After(v, run[..j]), run[j])
    decreases |run|
  {
    if j < |run| - 1 {
      var init := run[..|run| - 1];
      LosslessPrefix(v, init, w, j);
      assert init[..j] == run[..j];
    }
  }

  /** No action leaks unless it loses a task: releases do not slip while the ledger is in bounds. */
  lemma NoLeak(v: View, a: Action, w: string, r: Resource)
    requires v.Valid() && w in v.workers && Within(Ledger(v, w, r), r) && !Loses(v, a, w)
    ensures Leak(v, a, w, r) == 0
  {
    hide View.Valid, Within, Ledger, NeedOf, Slip;
    if a.Return? && MappedTo(v, a.task, w) {
      ReturnIsExact(v, w, a.task, r);
    }
  }

  lemma {:induction false} LosslessLeaksNothing(v: View, run: seq<Action>, w: string, r: Resource)
    requires Sound(v) && PermittedRun(v, run) && UniqueIds(v, run) && w in v.workers
    requires Lossless(v, run, w) && Within(Ledger(v, w, r), r)
    ensures TotalLeak(v, run, w, r) == 0
    decreases |run|
  {
    if run != [] {
      var init := run[..|run| - 1];
      LastStep(v, run);
      LosslessLeaksNothing(v, init, w, r);
      LosslessUndisturbed(v, init, w);
      Conserved(v, init, w, r);
      hide Sound, Ledger, Leak, Within, Next, Permitted;
      SoundValid(After(v, init));
      NoLeak(After(v, init), run[|run| - 1], w, r);
    }
  }

  /** The tasks now mapped to a worker. */
  ghost function Mapped(v: View, w: string): set<string> {
    set t | t in v.taskWorker && v.taskWorker[t] == w
  }

  lemma {:induction false} TotalOfOnes(m: map<string, int>)
    requires forall k :: k in m ==> m[k] == 1
    ensures Total(m) == |m|
    decreases |m|
  {
    if m != map[] {
      var k :| k in m && Total(m) == m[k] + Total(m - {k});
      TotalOfOnes(m - {k});
      assert (m - {k}).Keys == m.Keys - {k};
    }
  }

  lemma SlotsLoad(v: View, w: string)
    requires v.Valid()
    ensures Total(Loads(v, w, TaskSlots)) == |Mapped(v, w)|
  {
    TotalOfOnes(Loads(v, w, TaskSlots));
    assert Loads(v, w, TaskSlots).Keys == Mapped(v, w);
  }

  /** For a worker that starts with no task, after any lossless run: what it had free is what it
      has free now plus what its tasks need; the task count is the case of the last resource. */
  lemma FreshWorkerConserved(v: View, run: seq<Action>, w: string, r: Resource)
    requires Sound(v) && PermittedRun(v, run) && UniqueIds(v, run) && w in v.workers && Mapped(v, w) == {}
    requires Lossless(v, run, w)
    ensures Sound(After(v, run)) && w in After(v, run).workers
    ensures Free(v.workers[w], r) == Free(After(v, run).workers[w], r) + Total(Loads(After(v, run), w, r))
    ensures Within(Ledger(After(v, run), w, r), r)
  {
    NoLoad(v, w, r);
    StaysWithin(v, run, w, r);
  }

  /** So the worker has exactly as many more running tasks as there are tasks mapped to it. */
  lemma FreshWorkerTaskCount(v: View, run: seq<Action>, w: string)
    requires Sound(v) && PermittedRun(v, run) && UniqueIds(v, run) && w in v.workers && Mapped(v, w) == {}
    requires Lossless(v, run, w)
    ensures w in After(v, run).workers
    ensures After(v, run).workers[w].running == v.workers[w].running + |Mapped(After(v, run), w)|
  {
    FreshWorkerConserved(v, run, w, TaskSlots);
    SlotsLoad(After(v, run), w);
    hide Sound, PermittedRun, Lossless, Loads, After, Mapped, UniqueIds;
  }

  /** The action takes exactly what its task needs, or gives exactly that back; and what it gives
      back, it does not count down from zero. */
  ghost predicate Exact(v: View, a: Action, w: string)
    requires v.Valid() && w in v.workers && w in Next(v, a).workers
  {
    var u := Next(v, a);
    && (a.Dispatch? && a.worker == w ==>
          forall r :: Free(u.workers[w], r) == Free(v.workers[w], r) - Amount(NeedOf(v, a.task), r))
    && (a.Return? && MappedTo(v, a.task, w) ==>
          && v.workers[w].running > 0
          && forall r :: Free(u.workers[w], r) == Free(v.workers[w], r) + Amount(NeedOf(v, a.task), r))
  }

  lemma ActionExact(v: View, a: Action, w: string)
    requires Sound(v) && Permitted(v, a) && w in v.workers && w in Next(v, a).workers && !Loses(v, a, w)
    requires forall r :: Within(Ledger(v, w, r), r)
    ensures Exact(v, a, w)
  {
    hide Sound, Next, Permitted, NeedOf, Ledger, View.Valid, Within;
    SoundValid(v);
    if a.Dispatch? && a.worker == w {
      forall r {
        DispatchSlot(v, a, w, r);
      }
    } else if a.Return? && MappedTo(v, a.task, w) {
      ReturnIsExact(v, w, a.task, TaskSlots);
      forall r
        ensures Free(Next(v, a).workers[w], r) == Free(v.workers[w], r) + Amount(NeedOf(v, a.task), r)
      {
        UnmapSlot(v, a, w, r);
        ReturnIsExact(v, w, a.task, r);
      }
    }
  }

  /** In every lossless run of a worker whose ledger starts within bounds, every reservation and
      every release on it is exact: nothing wraps around, and the guard on the task count never
      fires. */
  lemma EveryMoveExact(v: View, run: seq<Action>, w: string, j: nat)
    requires Sound(v) && PermittedRun(v, run) && UniqueIds(v, run) && w in v.workers
    requires (forall r :: Within(Ledger(v, w, r), r)) && Lossless(v, run, w) && j < |run|
    ensures w in After(v, run[..j]).workers && w in Next(After(v, run[..j]), run[j]).workers
    ensures Exact(After(v, run[..j]), run[j], w)
  {
    hide Sound, Lossless, UniqueIds, Permitted, Next, Ledger, Within, Exact, Loses, FreshIds, View.Valid;
    SoundValid(v);
    LosslessPrefix(v, run, w, j);
    PrefixPermitted(v, run, j);
    var u := After(v, run[..j]);
    forall r
      ensures w in u.workers && Sound(u) && Within(Ledger(u, w, r), r)
    {
      StaysWithin(v, run[..j], w, r);
    }
    StaysWithin(v, run[..j], w, Cpu);
    LedgerStep(u, run[j], w, Cpu);
    ActionExact(u, run[j], w);
  }

  /** The ledger does not move in a lossless run. */
  lemma StaysWithin(v: View, run: seq<Action>, w: string, r: Resource)
    requires Sound(v) && PermittedRun(v, run) && UniqueIds(v, run) && w in v.workers
    requires Lossless(v, run, w) && Within(Ledger(v, w, r), r)
    ensures Sound(After(v, run)) && w in After(v, run).workers
    ensures Ledger(After(v, run), w, r) == Ledger(v, w, r)
  {
    LosslessLeaksNothing(v, run, w, r);
    LosslessUndisturbed(v, run, w);
    Conserved(v, run, w, r);
  }

  /** A worker without tasks is within bounds. */
  lemma FreshWithin(v: View, w: string)
    requires v.Valid() && w in v.workers && Mapped(v, w) == {}
    ensures forall r :: Within(Ledger(v, w, r), r)
  {
    forall r
      ensures Within(Ledger(v, w, r), r)
    {
      NoLoad(v, w, r);
    }
  }

  lemma NoLoad(v: View, w: string, r: Resource)
    requires v.Valid() && w in v.workers && Mapped(v, w) == {}
    ensures Ledger(v, w, r) == Free(v.workers[w], r) && Within(Ledger(v, w, r), r)
  {
    forall t | t in v.taskWorker
      ensures v.taskWorker[t] != w
    {
      assert t !in Mapped(v, w);
    }
    assert Loads(v, w, r) == map[];
  }
}
