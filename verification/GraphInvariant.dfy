/** What every reachable state of a graph keeps, and what each step may change. */
module GraphInvariant {
  import opened Collections
  import opened Tasks
  import opened GraphSpec

  /** A launched task has been released to the scheduler, whether or not it has finished. */
  predicate Launched(s: TaskState) {
    s != Pending && s != Skipped && s != Cancelled
  }

  /** The outcomes of a task that was run to its end. */
  predicate Settled(s: TaskState) {
    s == Passed || s.IsBroken()
  }

  /** A launched task has only finished parents. */
  ghost predicate LaunchedAfterParents(g: Shape, s: States)
    requires Fits(g, s)
  {
    forall p, c :: g.Edge(p, c) && Launched(s[c]) ==> s[p].IsTerminal()
  }

  /** The cascade has reached every default child of a broken task. */
  ghost predicate BrokenCascaded(g: Shape, s: States)
    requires Fits(g, s)
  {
    forall p, c :: g.Edge(p, c) && s[p].IsBroken() && g.Default(c) ==> s[c] != Pending
  }

  /** A waiting task with parents still waits for one that has not settled. */
  ghost predicate Waits(g: Shape, s: States, x: string)
    requires Fits(g, s) && x in s
  {
    exists p :: g.Edge(p, x) && !Settled(s[p])
  }

  /** No task outside the exempt ones waits for nothing. */
  ghost predicate NoneOverlooked(g: Shape, s: States, exempt: set<string>)
    requires Fits(g, s)
  {
    forall x :: x in s && s[x] == Pending && g.deps[x] != {} && x !in exempt ==> Waits(g, s, x)
  }

  /** Default tasks are launched only on success; on_failure ones only below a broken task. */
  ghost predicate LaunchedByCondition(g: Shape, s: States)
    requires Fits(g, s)
  {
    && (forall p, c :: g.Edge(p, c) && Launched(s[c]) && g.Default(c) ==> s[p] == Passed)
    && (forall c :: c in s && Launched(s[c]) && g.policy[c] == OnFailure && g.deps[c] != {}
          ==> AnyDepFailed(g, s, c))
  }

  ghost predicate InvExcept(g: Shape, s: States, exempt: set<string>) {
    && Fits(g, s)
    && LaunchedAfterParents(g, s)
    && BrokenCascaded(g, s)
    && NoneOverlooked(g, s, exempt)
    && LaunchedByCondition(g, s)
  }

  ghost predicate Inv(g: Shape, s: States) {
    InvExcept(g, s, {})
  }

  /** Each task stays where it is or makes one move that the transition table allows. */
  ghost predicate TableMoves(s: States, t: States) {
    s.Keys == t.Keys && forall x :: x in s ==> t[x] == s[x] || CanMove(s[x], t[x])
  }

  // ----- what carries the invariant from one state to the next -----

  /** Finished tasks stay as they are, and no task returns to Pending. */
  ghost predicate Advances(s: States, t: States) {
    s.Keys == t.Keys
    && forall x :: x in s ==> (s[x].IsTerminal() ==> t[x] == s[x]) && (t[x] == Pending ==> s[x] == Pending)
  }

  /** What the outcomes of its parents must be for a task to be launched. */
  ghost predicate MayLaunch(g: Shape, s: States, c: string)
    requires Fits(g, s) && c in s
  {
    && AllDepsTerminal(g, s, c)
    && (g.Default(c) ==> AllDepsPassed(g, s, c))
    && (g.policy[c] == OnFailure && g.deps[c] != {} ==> AnyDepFailed(g, s, c))
  }

  /** Both launching invariants, task by task. */
  lemma LaunchedIff(g: Shape, s: States)
    requires Fits(g, s)
    ensures LaunchedAfterParents(g, s) && LaunchedByCondition(g, s) <==>
            forall c :: c in s && Launched(s[c]) ==> MayLaunch(g, s, c)
  {
    if LaunchedAfterParents(g, s) && LaunchedByCondition(g, s) {
      forall c | c in s && Launched(s[c])
        ensures MayLaunch(g, s, c)
      {
        forall p | p in g.deps[c] ensures g.Edge(p, c) {}
      }
    }
    if forall c :: c in s && Launched(s[c]) ==> MayLaunch(g, s, c) {
      forall p, c | g.Edge(p, c) && Launched(s[c])
        ensures s[p].IsTerminal() && (g.Default(c) ==> s[p] == Passed)
      {
        assert MayLaunch(g, s, c) && p in g.deps[c];
      }
    }
  }

  lemma MayLaunchKept(g: Shape, s: States, t: States, c: string)
    requires Fits(g, s) && Fits(g, t) && Advances(s, t) && c in s && MayLaunch(g, s, c)
    ensures MayLaunch(g, t, c)
  {
    forall p | p in g.deps[c] ensures t[p] == s[p] {}
  }

  lemma WaitsKept(g: Shape, s: States, t: States, x: string)
    requires Fits(g, s) && Fits(g, t) && x in s && Waits(g, s, x)
    requires forall p :: g.Edge(p, x) && Settled(t[p]) ==> Settled(s[p])
    ensures Waits(g, t, x)
  {
    var p :| g.Edge(p, x) && !Settled(s[p]);
    assert !Settled(t[p]);
  }

  lemma Carry(g: Shape, s: States, t: States, before: set<string>, after: set<string>)
    requires InvExcept(g, s, before) && Fits(g, t) && Advances(s, t)
    requires forall c :: c in s && Launched(t[c]) && !Launched(s[c]) ==> MayLaunch(g, s, c)
    requires forall p, c :: g.Edge(p, c) && Settled(t[p]) && !Settled(s[p]) ==>
               c in after && (t[p].IsBroken() && g.Default(c) ==> t[c] != Pending)
    requires forall x :: x in before && x !in after && x in s && t[x] == Pending ==> Waits(g, t, x)
    ensures InvExcept(g, t, after)
  {
    LaunchedIff(g, s);
    forall c | c in t && Launched(t[c])
      ensures MayLaunch(g, t, c)
    {
      MayLaunchKept(g, s, t, c);
    }
    LaunchedIff(g, t);
    forall x | x in t && t[x] == Pending && g.deps[x] != {} && x !in after
      ensures Waits(g, t, x)
    {
      if x !in before {
        WaitsKept(g, s, t, x);
      }
    }
  }

  // ----- one step -----

  lemma InitialInv(g: Shape)
    requires g.Valid()
    ensures Inv(g, Initial(g))
  {
    forall x | x in g.edges && g.deps[x] != {}
      ensures Waits(g, Initial(g), x)
    {
      var p :| p in g.deps[x];
      assert g.Edge(p, x);
    }
  }

  /** A full scan would find nothing that Complete has not already released. */
  lemma MarkReadyLeavesChildren(g: Shape, s: States, x: string)
    requires Inv(g, s) && x in s && s[x] == Pending && g.deps[x] != {}
    ensures !AllDepsPassed(g, s, x)
  {
    var p :| g.Edge(p, x) && !Settled(s[p]);
    assert p in g.deps[x];
  }

  lemma MarkReadyInv(g: Shape, s: States)
    requires Inv(g, s)
    ensures Inv(g, MarkReadyAll(g, s)) && TableMoves(s, MarkReadyAll(g, s))
  {
    var t := MarkReadyAll(g, s);
    forall c | c in s && s[c] == Pending && AllDepsPassed(g, s, c)
      ensures MayLaunch(g, s, c)
    {
      if g.deps[c] != {} {
        MarkReadyLeavesChildren(g, s, c);
      }
    }
    hide LaunchedAfterParents, BrokenCascaded, NoneOverlooked, LaunchedByCondition, MayLaunch, AllDepsPassed;
    LaunchedInv(g, s, t);
  }

  /** Some Pending tasks that may be launched become Ready. */
  lemma LaunchedInv(g: Shape, s: States, t: States)
    requires Inv(g, s) && Fits(g, t)
    requires forall x :: x in s && t[x] != s[x] ==> s[x] == Pending && t[x] == Ready && MayLaunch(g, s, x)
    ensures Inv(g, t) && TableMoves(s, t)
  {
    hide LaunchedAfterParents, BrokenCascaded, NoneOverlooked, LaunchedByCondition, MayLaunch;
    Carry(g, s, t, {}, {});
  }

  lemma TransitionInv(g: Shape, s: States, id: string, target: TaskState)
    requires Inv(g, s) && (target == Scheduled || target == Running)
    ensures Inv(g, Transition(s, id, target)) && TableMoves(s, Transition(s, id, target))
  {
    hide InvExcept;
    InvFits(g, s);
    if id in s && CanMove(s[id], target) {
      MovedOnInv(g, s, id, target);
    }
  }

  lemma InvFits(g: Shape, s: States)
    requires Inv(g, s)
    ensures Fits(g, s)
  {
  }

  /** A task that has been launched and not finished moves on to another such state. */
  lemma MovedOnInv(g: Shape, s: States, id: string, target: TaskState)
    requires Inv(g, s) && id in s && Launched(s[id]) && !s[id].IsTerminal()
    requires Launched(target) && !target.IsTerminal()
    ensures Inv(g, s[id := target])
  {
    hide LaunchedAfterParents, BrokenCascaded, NoneOverlooked, LaunchedByCondition, MayLaunch;
    Carry(g, s, s[id := target], {}, {});
  }

  lemma CancelInv(g: Shape, s: States)
    requires Inv(g, s)
    ensures Inv(g, CancelAll(s)) && TableMoves(s, CancelAll(s))
  {
    hide LaunchedAfterParents, BrokenCascaded, NoneOverlooked, LaunchedByCondition, MayLaunch, Waits;
    Carry(g, s, CancelAll(s), {}, {});
  }

  // ----- Complete -----

  /** In a reachable state the cascade below an unfinished task meets Pending tasks only. */
  lemma CascadeMeetsOnlyPending(g: Shape, s: States, from: string, x: string)
    requires Fits(g, s) && LaunchedAfterParents(g, s)
    requires from in s && !s[from].IsTerminal()
    requires SkipReach(g, s, from, x)
    ensures x in s && s[x] == Pending
  {
    var path :| SkipPath(g, s, path) && path[0] == from && path[|path| - 1] == x;
    assert g.Edge(path[0], path[1]);
    var i := 1;
    while i < |path| - 1
      invariant 1 <= i < |path| && path[i] in s && s[path[i]] == Pending
    {
      i := i + 1;
      assert g.Edge(path[i - 1], path[i]);
    }
  }

  /** Settle changes the task itself, and turns to Skipped some tasks that were Pending. */
  lemma SettleChanges(g: Shape, s: States, id: string, outcome: TaskState)
    requires Inv(g, s) && id in s && CanMove(s[id], outcome) && outcome.IsTerminal()
    ensures var t := Settle(g, s, id, outcome);
      && t[id] == outcome
      && forall x :: x in s && x != id && t[x] != s[x] ==>
           s[x] == Pending && t[x] == Skipped && SkipReach(g, s, id, x) && g.Default(x)
  {
    hide LaunchedAfterParents, BrokenCascaded, NoneOverlooked, LaunchedByCondition, SkipReach;
    forall x | SkipReach(g, s[id := outcome], id, x)
      ensures x in s && s[x] == Pending && x != id && SkipReach(g, s, id, x) && g.Default(x)
    {
      CascadeMeets(g, s, id, outcome, x);
    }
  }

  lemma CascadeMeets(g: Shape, s: States, id: string, outcome: TaskState, x: string)
    requires Inv(g, s) && id in s && CanMove(s[id], outcome) && outcome.IsTerminal()
    requires SkipReach(g, s[id := outcome], id, x)
    ensures x in s && s[x] == Pending && x != id && SkipReach(g, s, id, x) && g.Default(x)
  {
    hide BrokenCascaded, NoneOverlooked, LaunchedByCondition, LaunchedAfterParents, SkipReach, Shape.Valid;
    ReachedIsSkippable(g, s[id := outcome], id, x);
    assert forall y :: Skippable(g, s[id := outcome], y) ==> Skippable(g, s, y);
    SkipReachAntitone(g, s, s[id := outcome], id, x);
    CascadeMeetsOnlyPending(g, s, id, x);
  }

  /** The cascade leaves no default child of a broken task waiting. */
  lemma SettleLeavesNoDefaultChild(g: Shape, s: States, id: string, outcome: TaskState, c: string)
    requires Fits(g, s) && id in s && outcome.IsBroken() && g.Edge(id, c) && g.Default(c)
    ensures Settle(g, s, id, outcome)[c] != Pending
  {
    var mid := s[id := outcome];
    if mid[c] == Pending {
      SkipReachChild(g, mid, id, c);
    }
  }

  lemma OutcomeMoves(from: TaskState, outcome: TaskState)
    requires CanMove(from, outcome) && outcome.IsTerminal()
    ensures !from.IsTerminal() && (Launched(outcome) ==> Launched(from))
  {
  }

  lemma SettledInv(g: Shape, s: States, t: States, id: string)
    requires Inv(g, s) && Fits(g, t) && id in s && CanMove(s[id], t[id]) && t[id].IsTerminal()
    requires forall x :: x in s && x != id && t[x] != s[x] ==> s[x] == Pending && t[x] == Skipped
    requires forall c :: g.Edge(id, c) && t[id].IsBroken() && g.Default(c) ==> t[c] != Pending
    ensures InvExcept(g, t, g.edges[id])
  {
    hide LaunchedAfterParents, BrokenCascaded, NoneOverlooked, LaunchedByCondition, MayLaunch, Waits, CanMove;
    OutcomeMoves(s[id], t[id]);
    Carry(g, s, t, {}, g.edges[id]);
  }

  lemma SettleInv(g: Shape, s: States, id: string, outcome: TaskState)
    requires Inv(g, s) && id in s && CanMove(s[id], outcome) && outcome.IsTerminal()
    ensures InvExcept(g, Settle(g, s, id, outcome), g.edges[id])
    ensures TableMoves(s, Settle(g, s, id, outcome))
  {
    var t := Settle(g, s, id, outcome);
    SettleChanges(g, s, id, outcome);
    forall c | g.Edge(id, c) && t[id].IsBroken() && g.Default(c)
      ensures t[c] != Pending
    {
      SettleLeavesNoDefaultChild(g, s, id, outcome, c);
    }
    SettledInv(g, s, t, id);
  }

  /** A child is launched only when it may be, and one left undecided still waits. */
  lemma UnlockChildDecides(g: Shape, s: States, c: string)
    requires Fits(g, s) && BrokenCascaded(g, s) && c in s && s[c] == Pending
    ensures var v := UnlockChild(g, s, c)[c];
      && UnlockChild(g, s, c) == s[c := v]
      && (v == Pending || v == Ready || v == Skipped)
      && (v == Ready ==> MayLaunch(g, s, c))
      && (v == Pending ==> Waits(g, s, c))
  {
    assert s == s[c := Pending];
    if UnlockChild(g, s, c)[c] == Pending {
      if AllDepsTerminal(g, s, c) {
        var p :| p in g.deps[c] && s[p] != Passed;
        assert g.Edge(p, c) && !Settled(s[p]);
      } else {
        var p :| p in g.deps[c] && !s[p].IsTerminal();
        assert g.Edge(p, c);
      }
    }
  }

  lemma DecidedInv(g: Shape, s: States, c: string, v: TaskState, exempt: set<string>)
    requires InvExcept(g, s, exempt + {c}) && c in s && s[c] == Pending
    requires v == Pending || v == Ready || v == Skipped
    requires v == Ready ==> MayLaunch(g, s, c)
    requires v == Pending ==> Waits(g, s, c)
    ensures InvExcept(g, s[c := v], exempt)
  {
    hide LaunchedAfterParents, BrokenCascaded, NoneOverlooked, LaunchedByCondition;
    assert v == Pending ==> s[c := v] == s;
    Carry(g, s, s[c := v], exempt + {c}, exempt);
  }

  /** Deciding one child restores what finishing the parent had suspended for it. */
  lemma UnlockChildInv(g: Shape, s: States, c: string, exempt: set<string>)
    requires InvExcept(g, s, exempt + {c})
    ensures InvExcept(g, UnlockChild(g, s, c), exempt)
    ensures forall x :: x in s && UnlockChild(g, s, c)[x] != s[x] ==>
              x == c && s[x] == Pending && (UnlockChild(g, s, c)[x] == Ready || UnlockChild(g, s, c)[x] == Skipped)
  {
    if c in s && s[c] == Pending {
      UnlockChildDecides(g, s, c);
      DecidedInv(g, s, c, UnlockChild(g, s, c)[c], exempt);
    } else {
      assert forall x :: x in exempt + {c} && x !in exempt ==> x == c;
    }
  }

  lemma {:induction false} UnlockInv(g: Shape, s: States, order: seq<string>, rest: set<string>)
    requires Distinct(order) && InvExcept(g, s, rest + Elements(order))
    ensures InvExcept(g, Unlock(g, s, order), rest)
    ensures forall x :: x in s && Unlock(g, s, order)[x] != s[x] ==>
              x in order && s[x] == Pending && (Unlock(g, s, order)[x] == Ready || Unlock(g, s, order)[x] == Skipped)
    decreases |order|
  {
    if order == [] {
      assert rest + Elements(order) == rest;
    } else {
      var init, c := order[..|order| - 1], order[|order| - 1];
      assert rest + Elements(order) == (rest + {c}) + Elements(init);
      UnlockInv(g, s, init, rest + {c});
      UnlockChildInv(g, Unlock(g, s, init), c, rest);
    }
  }

  lemma FinishInv(g: Shape, s: States, id: string, outcome: TaskState, order: seq<string>)
    requires Inv(g, s) && Legal(g, Complete(id, outcome, order))
    ensures Inv(g, Finish(g, s, id, outcome, order))
    ensures TableMoves(s, Finish(g, s, id, outcome, order))
    ensures OthersWerePending(s, Finish(g, s, id, outcome, order), id)
    ensures id in s ==> Finish(g, s, id, outcome, order)[id] == if CanMove(s[id], outcome) then outcome else s[id]
  {
    hide InvExcept, SkipReach, Settle, Unlock;
    InvFits(g, s);
    if id in s && CanMove(s[id], outcome) {
      var t := Settle(g, s, id, outcome);
      SettleChanges(g, s, id, outcome);
      SettleInv(g, s, id, outcome);
      assert {} + Elements(order) == g.edges[id];
      UnlockInv(g, t, order, {});
      SettleThenUnlockMoves(s, t, Unlock(g, t, order), id);
    }
  }

  /** Apart from the finished task, only tasks that were Pending have changed. */
  ghost predicate OthersWerePending(s: States, t: States, id: string) {
    s.Keys == t.Keys && forall x :: x in s && x != id && t[x] != s[x] ==> s[x] == Pending
  }

  lemma SettleThenUnlockMoves(s: States, t: States, u: States, id: string)
    requires TableMoves(s, t) && t.Keys == u.Keys && OthersWerePending(s, t, id)
    requires forall x :: x in t && u[x] != t[x] ==> t[x] == Pending && (u[x] == Ready || u[x] == Skipped)
    ensures TableMoves(s, u) && OthersWerePending(s, u, id)
  {
    forall x | x in s && u[x] != s[x]
      ensures CanMove(s[x], u[x])
    {
      TransitionsClimb(s[x], Pending);
    }
  }

  lemma StepInv(g: Shape, s: States, e: Event)
    requires Inv(g, s) && Legal(g, e)
    ensures Inv(g, Step(g, s, e)) && TableMoves(s, Step(g, s, e))
  {
    hide InvExcept, TableMoves, MarkReadyAll, CancelAll, Transition, Finish;
    match e
    case MarkReady => MarkReadyInv(g, s);
    case Assign(id) => TransitionInv(g, s, id, Scheduled);
    case Start(id) => TransitionInv(g, s, id, Running);
    case Complete(id, outcome, order) => FinishInv(g, s, id, outcome, order);
    case Cancel => CancelInv(g, s);
  }

  // ----- every run -----

  /** Every reachable state satisfies the invariant. */
  lemma {:induction false} RunInv(g: Shape, run: seq<Event>)
    requires g.Valid() && AllLegal(g, run)
    ensures Inv(g, Run(g, Initial(g), run))
  {
    if run == [] {
      InitialInv(g);
    } else {
      RunInv(g, run[..|run| - 1]);
      StepInv(g, Run(g, Initial(g), run[..|run| - 1]), run[|run| - 1]);
    }
  }

  /** Every write of a task's state, in every run, is a move of the transition table. */
  lemma RunMovesByTable(g: Shape, run: seq<Event>, e: Event)
    requires g.Valid() && AllLegal(g, run) && Legal(g, e)
    ensures var s := Run(g, Initial(g), run); TableMoves(s, Step(g, s, e))
  {
    RunInv(g, run);
    StepInv(g, Run(g, Initial(g), run), e);
  }

  /** The same of Complete, write by write: in every reachable state the outcome itself, each task
      that the cascade skips, and each child that is decided, move as the table allows from where
      they are when they are written. */
  lemma CompleteWritesByTable(g: Shape, run: seq<Event>, id: string, outcome: TaskState, order: seq<string>, k: nat)
    requires g.Valid() && AllLegal(g, run) && Legal(g, Complete(id, outcome, order)) && k < |order|
    requires id in g.edges && CanMove(Run(g, Initial(g), run)[id], outcome)
    ensures var s := Run(g, Initial(g), run);
      && TableMoves(s, s[id := outcome])
      && TableMoves(s[id := outcome], Settle(g, s, id, outcome))
      && var u := Unlock(g, Settle(g, s, id, outcome), order[..k]);
         && TableMoves(u, UnlockChild(g, u, order[k]))
         && UnlockChild(g, u, order[k]) == Unlock(g, Settle(g, s, id, outcome), order[..k + 1])
  {
    hide Run, Initial, Inv, Settle, UnlockChild, Unlock, TableMoves, IsListing;
    RunInv(g, run);
    var s := Run(g, Initial(g), run);
    SettleByTable(g, s, id, outcome);
    var t := Settle(g, s, id, outcome);
    UnlockNext(g, t, order, k);
    ChildWriteByTable(g, Unlock(g, t, order[..k]), order[k]);
  }

  lemma SettleByTable(g: Shape, s: States, id: string, outcome: TaskState)
    requires Inv(g, s) && id in s && CanMove(s[id], outcome) && Reportable(outcome)
    ensures TableMoves(s, s[id := outcome]) && TableMoves(s[id := outcome], Settle(g, s, id, outcome))
  {
    hide Settle, InvExcept, SkipReach, TableMoves;
    InvFits(g, s);
    SettleChanges(g, s, id, outcome);
    OutcomeThenCascade(s, Settle(g, s, id, outcome), id);
  }

  lemma OutcomeThenCascade(s: States, t: States, id: string)
    requires s.Keys == t.Keys && id in s && CanMove(s[id], t[id])
    requires forall x :: x in s && x != id && t[x] != s[x] ==> s[x] == Pending && t[x] == Skipped
    ensures TableMoves(s, s[id := t[id]]) && TableMoves(s[id := t[id]], t)
  {
  }

  lemma UnlockNext(g: Shape, t: States, order: seq<string>, k: nat)
    requires Fits(g, t) && k < |order|
    ensures Unlock(g, t, order[..k + 1]) == UnlockChild(g, Unlock(g, t, order[..k]), order[k])
  {
    assert order[..k + 1][..k] == order[..k];
  }

  lemma ChildWriteByTable(g: Shape, s: States, c: string)
    requires Fits(g, s)
    ensures TableMoves(s, UnlockChild(g, s, c))
  {
    hide AnyDepFailed, AllDepsTerminal, AllDepsPassed, Shape.Valid;
  }

  lemma {:induction false} RunConcat(g: Shape, s: States, first: seq<Event>, second: seq<Event>)
    requires Fits(g, s)
    ensures Run(g, s, first + second) == Run(g, Run(g, s, first), second)
    decreases |second|
  {
    hide Step;
    if second == [] {
      assert first + second == first;
    } else {
      var init := second[..|second| - 1];
      RunConcat(g, s, first, init);
      assert (first + second)[..|first + second| - 1] == first + init;
    }
  }
}
