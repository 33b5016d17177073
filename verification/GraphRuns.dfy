/** Theorems about whole runs of a graph: scanning, progress, termination, determinism. */
module GraphRuns {
  import opened Collections
  import opened Tasks
  import opened GraphSpec
  import opened GraphInvariant
  import opened Cycles

  ghost function Reached(g: Shape, run: seq<Event>): (s: States)
    requires g.Valid()
    ensures Fits(g, s)
  {
    Run(g, Initial(g), run)
  }

  // ----- the incremental unlock agrees with a full scan -----

  ghost predicate NoPendingRoot(g: Shape, s: States)
    requires Fits(g, s)
  {
    forall x :: x in s && g.deps[x] == {} ==> s[x] != Pending
  }

  /** The scan of MarkReady promotes exactly the roots that still wait. */
  lemma ScanPromotesRoots(g: Shape, run: seq<Event>, x: string)
    requires g.Valid() && AllLegal(g, run) && x in g.Ids()
    ensures var s := Reached(g, run);
      MarkReadyAll(g, s)[x] != s[x] <==> s[x] == Pending && g.deps[x] == {}
  {
    RunInv(g, run);
    var s := Reached(g, run);
    if s[x] == Pending && g.deps[x] != {} {
      MarkReadyLeavesChildren(g, s, x);
    }
  }

  lemma ScanLeavesNoRoot(g: Shape, s: States)
    requires Fits(g, s)
    ensures NoPendingRoot(g, MarkReadyAll(g, s))
  {
  }

  lemma MovesKeepNoRoot(g: Shape, s: States, t: States)
    requires Fits(g, s) && Fits(g, t) && NoPendingRoot(g, s) && TableMoves(s, t)
    ensures NoPendingRoot(g, t)
  {
    forall x | x in t && g.deps[x] == {}
      ensures t[x] != Pending
    {
      TransitionsClimb(s[x], Pending);
    }
  }

  lemma ReachedStep(g: Shape, run: seq<Event>)
    requires g.Valid() && run != []
    ensures Reached(g, run) == Step(g, Reached(g, run[..|run| - 1]), run[|run| - 1])
  {
  }

  lemma {:induction false} RootsStayPromoted(g: Shape, run: seq<Event>, i: nat)
    requires g.Valid() && AllLegal(g, run) && i < |run| && run[i] == MarkReady
    ensures NoPendingRoot(g, Reached(g, run))
    decreases |run|
  {
    hide Reached, NoPendingRoot, Legal, TableMoves;
    var init := run[..|run| - 1];
    ReachedStep(g, run);
    if i < |init| {
      RootsStayPromoted(g, init, i);
      MovesInRun(g, run);
      MovesKeepNoRoot(g, Reached(g, init), Reached(g, run));
    } else {
      ScanLeavesNoRoot(g, Reached(g, init));
    }
  }

  lemma MovesInRun(g: Shape, run: seq<Event>)
    requires g.Valid() && AllLegal(g, run) && run != []
    ensures TableMoves(Reached(g, run[..|run| - 1]), Reached(g, run))
  {
    RunMovesByTable(g, run[..|run| - 1], run[|run| - 1]);
    assert run[..|run| - 1] + [run[|run| - 1]] == run;
    hide TableMoves, Step;
  }

  /** After the first MarkReady of a run, every later one promotes nothing. */
  lemma LaterScansFindNothing(g: Shape, run: seq<Event>, i: nat)
    requires g.Valid() && AllLegal(g, run) && i < |run| && run[i] == MarkReady
    ensures MarkReadyAll(g, Reached(g, run)) == Reached(g, run)
  {
    RootsStayPromoted(g, run, i);
    forall x | x in g.Ids()
      ensures MarkReadyAll(g, Reached(g, run))[x] == Reached(g, run)[x]
    {
      ScanPromotesRoots(g, run, x);
    }
  }

  // ----- progress -----

  /** Nothing is waiting for a worker or running on one. */
  ghost predicate Quiet(s: States) {
    forall x :: x in s ==> s[x] == Pending || s[x].IsTerminal()
  }

  /** A waiting task with a parent that was skipped or cancelled instead of being run. */
  ghost predicate Stranded(g: Shape, s: States, p: string, c: string)
    requires Fits(g, s)
  {
    g.Edge(p, c) && s[c] == Pending && (s[p] == Skipped || s[p] == Cancelled)
  }

  /** A scanned graph that has come to rest unfinished has stranded a task. */
  lemma RestMeansStranded(g: Shape, run: seq<Event>, i: nat) returns (p: string, c: string)
    requires g.Valid() && !Cyclic(g) && AllLegal(g, run) && i < |run| && run[i] == MarkReady
    requires Quiet(Reached(g, run)) && !Finished(Reached(g, run))
    ensures Stranded(g, Reached(g, run), p, c)
  {
    var s := Reached(g, run);
    RunInv(g, run);
    RootsStayPromoted(g, run, i);
    var waiting := set x | x in s && s[x] == Pending;
    var y :| y in s && !s[y].IsTerminal();
    assert y in waiting;
    c := SourceExists(g, waiting);
    assert Waits(g, s, c);
    p :| g.Edge(p, c) && !Settled(s[p]);
    assert p !in waiting;
  }

  /** The event finishes a Pending task from outside: a cancellation of the build, or a report
      that a task which was never sent off is Skipped or Cancelled. */
  predicate Stirs(s: States, e: Event) {
    || (e == Cancel && exists x :: x in s && s[x] == Pending)
    || (e.Complete? && e.id in s && s[e.id] == Pending && CanMove(Pending, e.outcome))
  }

  lemma QuietStepIdle(g: Shape, s: States, e: Event)
    requires Fits(g, s) && Quiet(s) && MarkReadyAll(g, s) == s && !Stirs(s, e)
    ensures Step(g, s, e) == s
  {
    hide MarkReadyAll, Unlock, Settle;
    match e
    case MarkReady =>
    case Assign(id) => assert id in s ==> !CanMove(s[id], Scheduled);
    case Start(id) => assert id in s ==> !CanMove(s[id], Running);
    case Complete(id, outcome, order) => assert id in s ==> !CanMove(s[id], outcome);
    case Cancel => assert CancelAll(s) == s;
  }

  lemma StirredMoves(g: Shape, s: States, e: Event)
    requires Inv(g, s) && Legal(g, e) && Stirs(s, e)
    ensures Step(g, s, e) != s
  {
    if e.Complete? {
      FinishInv(g, s, e.id, e.outcome, e.order);
    } else {
      var x :| x in s && s[x] == Pending;
      assert CancelAll(s)[x] != s[x];
    }
    hide Inv, Finish;
  }

  /** A rest with every root promoted is final: exactly the events that finish a Pending task from
      outside change it, and no scan, transition or settled report does. */
  lemma RestIsFinal(g: Shape, run: seq<Event>, i: nat, e: Event)
    requires g.Valid() && AllLegal(g, run) && Legal(g, e) && i < |run| && run[i] == MarkReady
    requires Quiet(Reached(g, run))
    ensures Step(g, Reached(g, run), e) == Reached(g, run) <==> !Stirs(Reached(g, run), e)
  {
    hide Step, Stirs;
    LaterScansFindNothing(g, run, i);
    RunInv(g, run);
    if Stirs(Reached(g, run), e) {
      StirredMoves(g, Reached(g, run), e);
    } else {
      QuietStepIdle(g, Reached(g, run), e);
    }
  }

  /** At rest a graph is unfinished exactly if some task is stranded. */
  lemma RestIff(g: Shape, run: seq<Event>, i: nat)
    requires g.Valid() && !Cyclic(g) && AllLegal(g, run) && i < |run| && run[i] == MarkReady
    requires Quiet(Reached(g, run))
    ensures Finished(Reached(g, run)) <==> forall p, c :: !Stranded(g, Reached(g, run), p, c)
  {
    if !Finished(Reached(g, run)) {
      var p, c := RestMeansStranded(g, run, i);
    }
  }

  ghost predicate AllDefault(g: Shape) {
    forall x :: x in g.policy ==> g.policy[x] == OnSuccess
  }

  /** No task that can be skipped has a child that skipping leaves behind: an on_failure task
      below others has no children, and the parents of a task with a condition are roots or run
      always. This is enough for every run to finish, but not necessary for it. */
  ghost predicate NothingLeftBehind(g: Shape)
    requires g.Valid()
  {
    && (forall p, c :: g.Edge(p, c) && g.policy[p] == OnFailure ==> g.deps[p] == {})
    && (forall p, c :: g.Edge(p, c) && !g.Default(c) ==> g.deps[p] == {} || g.policy[p] == Always)
  }

  ghost predicate OnlySettledReports(run: seq<Event>) {
    forall i :: 0 <= i < |run| && run[i].Complete? ==> Settled(run[i].outcome)
  }

  ghost predicate NoneStranded(g: Shape, s: States)
    requires Fits(g, s)
  {
    forall p, c :: !Stranded(g, s, p, c)
  }

  lemma SkippedHasParent(g: Shape, s: States, from: string, p: string)
    requires Fits(g, s) && SkipReach(g, s, from, p)
    ensures g.deps[p] != {} && g.Default(p)
  {
    var path :| SkipPath(g, s, path) && path[0] == from && path[|path| - 1] == p;
    assert g.Edge(path[|path| - 2], p) && Skippable(g, s, p);
  }

  lemma SettleStrandsNone(g: Shape, s: States, id: string, outcome: TaskState)
    requires Fits(g, s) && NothingLeftBehind(g) && NoneStranded(g, s) && id in s && Settled(outcome)
    ensures NoneStranded(g, Settle(g, s, id, outcome))
  {
    var mid, t := s[id := outcome], Settle(g, s, id, outcome);
    forall p, c | Stranded(g, t, p, c)
      ensures false
    {
      if mid[p] == t[p] {
        assert Stranded(g, s, p, c);
      } else {
        assert SkipReach(g, mid, id, p);
        SkippedHasParent(g, mid, id, p);
        assert g.Default(c) && Skippable(g, mid, c);
        SkipReachAppend(g, mid, id, p, c);
      }
    }
  }

  /** Only an on_failure child is skipped here, and it has no children of its own. */
  lemma UnlockChildStrandsNone(g: Shape, s: States, x: string)
    requires Fits(g, s) && NothingLeftBehind(g) && NoneStranded(g, s) && x in g.deps && g.deps[x] != {}
    ensures NoneStranded(g, UnlockChild(g, s, x))
  {
    var u := UnlockChild(g, s, x);
    forall p, c | Stranded(g, u, p, c)
      ensures Stranded(g, s, p, c)
    {
      assert p == x ==> g.policy[p] != OnFailure;
    }
  }

  lemma {:induction false} UnlockStrandsNone(g: Shape, s: States, order: seq<string>)
    requires Fits(g, s) && NothingLeftBehind(g) && NoneStranded(g, s)
    requires forall x :: x in order ==> x in g.deps && g.deps[x] != {}
    ensures NoneStranded(g, Unlock(g, s, order))
    decreases |order|
  {
    if order != [] {
      var t := Unlock(g, s, order[..|order| - 1]);
      UnlockStrandsNone(g, s, order[..|order| - 1]);
      UnlockChildStrandsNone(g, t, order[|order| - 1]);
    }
  }

  lemma ChildrenHaveParents(g: Shape, id: string, order: seq<string>)
    requires g.Valid() && id in g.edges && IsListing(order, g.edges[id])
    ensures forall x :: x in order ==> x in g.deps && g.deps[x] != {}
  {
    forall x | x in order
      ensures x in g.deps && g.deps[x] != {}
    {
      assert x in Elements(order) && g.Edge(id, x);
    }
  }

  lemma StepStrandsNone(g: Shape, s: States, e: Event)
    requires Fits(g, s) && NothingLeftBehind(g) && NoneStranded(g, s)
    requires Legal(g, e) && (e.Complete? ==> Settled(e.outcome))
    ensures NoneStranded(g, Step(g, s, e))
  {
    var t := Step(g, s, e);
    if e.Complete? {
      if e.id in s && CanMove(s[e.id], e.outcome) {
        ChildrenHaveParents(g, e.id, e.order);
        SettleStrandsNone(g, s, e.id, e.outcome);
        UnlockStrandsNone(g, Settle(g, s, e.id, e.outcome), e.order);
      }
    } else {
      forall p, c | Stranded(g, t, p, c)
        ensures Stranded(g, s, p, c)
      {
      }
    }
  }

  lemma {:induction false} RunStrandsNone(g: Shape, run: seq<Event>)
    requires g.Valid() && NothingLeftBehind(g) && AllLegal(g, run) && OnlySettledReports(run)
    ensures NoneStranded(g, Reached(g, run))
  {
    if run != [] {
      var init := run[..|run| - 1];
      RunStrandsNone(g, init);
      StepStrandsNone(g, Reached(g, init), run[|run| - 1]);
    }
  }

  /** Progress: with settled reports, a scanned graph that leaves nothing behind rests only when
      every task is finished. */
  lemma RestMeansFinished(g: Shape, run: seq<Event>, i: nat)
    requires g.Valid() && !Cyclic(g) && AllLegal(g, run) && i < |run| && run[i] == MarkReady
    requires NothingLeftBehind(g) && OnlySettledReports(run)
    requires Quiet(Reached(g, run))
    ensures Finished(Reached(g, run))
  {
    RunStrandsNone(g, run);
    RestIff(g, run, i);
  }

  /** In particular if every task has the default condition. */
  lemma DefaultRestMeansFinished(g: Shape, run: seq<Event>, i: nat)
    requires g.Valid() && !Cyclic(g) && AllLegal(g, run) && i < |run| && run[i] == MarkReady
    requires AllDefault(g) && OnlySettledReports(run)
    requires Quiet(Reached(g, run))
    ensures Finished(Reached(g, run))
  {
    assert NothingLeftBehind(g);
    RestMeansFinished(g, run, i);
  }

  // ----- termination -----

  ghost function TotalRank(s: States): int {
    Total(map x | x in s :: s[x].Rank())
  }

  /** The number of state changes in a run, over all tasks. */
  ghost function ChangeCount(g: Shape, run: seq<Event>): nat
    requires g.Valid()
  {
    if run == [] then 0
    else
      var s := Reached(g, run[..|run| - 1]);
      ChangeCount(g, run[..|run| - 1]) + |Changed(s, Step(g, s, run[|run| - 1]))|
  }

  lemma {:induction false} TotalClimbs(a: map<string, int>, b: map<string, int>, higher: set<string>)
    requires a.Keys == b.Keys && higher <= a.Keys
    requires forall k :: k in a ==> a[k] + (if k in higher then 1 else 0) <= b[k]
    ensures Total(a) + |higher| <= Total(b)
    decreases |a|
  {
    if a == map[] {
      assert higher == {} && b == map[];
    } else {
      var k :| k in a;
      TotalRemove(a, k);
      TotalRemove(b, k);
      TotalClimbs(a - {k}, b - {k}, higher - {k});
    }
  }

  lemma {:induction false} RankCounts(g: Shape, run: seq<Event>)
    requires g.Valid() && AllLegal(g, run)
    ensures ChangeCount(g, run) <= TotalRank(Reached(g, run))
  {
    if run == [] {
      TotalBounds(map x | x in Initial(g) :: Initial(g)[x].Rank(), 0);
    } else {
      var init, e := run[..|run| - 1], run[|run| - 1];
      RankCounts(g, init);
      RunMovesByTable(g, init, e);
      var s, t := Reached(g, init), Reached(g, run);
      forall x | x in s && s[x] != t[x]
        ensures s[x].Rank() < t[x].Rank()
      {
        TransitionsClimb(s[x], t[x]);
      }
      TotalClimbs(map x | x in s :: s[x].Rank(), map x | x in t :: t[x].Rank(), Changed(s, t));
    }
  }

  /** A build of n tasks changes state at most 4n times, however long it runs. */
  lemma ChangesAreBounded(g: Shape, run: seq<Event>)
    requires g.Valid() && AllLegal(g, run)
    ensures ChangeCount(g, run) <= 4 * |g.Ids()|
  {
    RankCounts(g, run);
    var ranks := map x | x in Reached(g, run) :: Reached(g, run)[x].Rank();
    TotalBounds(ranks, 4);
    assert ranks.Keys == g.Ids();
  }

  /** A finished task keeps its outcome for the rest of the run. */
  lemma {:induction false} FinishedForGood(g: Shape, run: seq<Event>, more: seq<Event>, x: string)
    requires g.Valid() && AllLegal(g, run + more) && x in g.Ids()
    requires Reached(g, run)[x].IsTerminal()
    ensures Reached(g, run + more)[x] == Reached(g, run)[x]
    decreases |more|
  {
    if more == [] {
      assert run + more == run;
    } else {
      var init := more[..|more| - 1];
      assert run + more == (run + init) + [more[|more| - 1]];
      assert forall i :: 0 <= i < |run + init| ==> (run + init)[i] == (run + more)[i];
      FinishedForGood(g, run, init, x);
      assert (run + more)[|run + init|] == more[|more| - 1];
      RunMovesByTable(g, run + init, more[|more| - 1]);
      assert (run + more)[..|run + more| - 1] == run + init;
      TransitionsClimb(Reached(g, run + init)[x], Reached(g, run + more)[x]);
    }
  }
}
