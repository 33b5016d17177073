/** What the death of a worker does to a build, whatever the order in which its tasks are found. */
module LossOrder {
  import opened Collections
  import opened Tasks
  import opened GraphSpec
  import opened GraphInvariant
  import opened SchedulerSpec
  import opened SchedulerInvariant
  import opened SchedulerActions
  import opened SchedulerOutcomes

  /** No task with a condition is below one that a cascade can skip. */
  ghost predicate NoneSkippedAbove(g: Shape)
    requires g.Valid()
  {
    forall p, c :: g.Edge(p, c) && !g.Default(c) && g.Default(p) ==> g.deps[p] == {}
  }

  ghost predicate Below(g: Shape, s: States, failed: set<string>, x: string) {
    exists p :: p in failed && SkipReach(g, s, p, x)
  }

  /** Some of its parents have failed, and the others are finished. */
  ghost predicate Released(g: Shape, s: States, failed: set<string>, x: string)
    requires Fits(g, s) && x in s
  {
    && s[x] == Pending && !g.Default(x) && (exists p :: p in failed && g.Edge(p, x))
    && forall q :: q in g.deps[x] ==> q in failed || s[q].IsTerminal()
  }

  /** All of these tasks fail at once. */
  ghost function FailAll(g: Shape, s: States, failed: set<string>): (r: States)
    requires Fits(g, s)
    ensures Fits(g, r)
  {
    map x | x in s ::
      if x in failed then Failed
      else if Below(g, s, failed, x) then Skipped
      else if Released(g, s, failed, x) then Ready
      else s[x]
  }

  // ----- one task after the others -----

  ghost predicate Opens(g: Shape, t: States, x: string)
    requires Fits(g, t) && x in t
  {
    t[x] == Pending && !g.Default(x) && AllDepsTerminal(g, t, x)
  }

  lemma OpensPending(g: Shape, t: States)
    requires Fits(g, t)
    ensures forall x :: x in t && Opens(g, t, x) ==> t[x] == Pending
  {
  }

  /** Visiting the children of a broken task releases exactly those with a condition whose parents
      are all finished, in any order. */
  lemma {:induction false} BrokenUnlock(g: Shape, t: States, id: string, order: seq<string>)
    requires Fits(g, t) && id in t && t[id].IsBroken() && forall x :: x in order ==> g.Edge(id, x)
    ensures forall x :: x in t ==>
              Unlock(g, t, order)[x] == if x in order && Opens(g, t, x) then Ready else t[x]
    decreases |order|
  {
    hide UnlockChild, Opens, Shape.Valid, Shape.Edge;
    if order != [] {
      var init, c := order[..|order| - 1], order[|order| - 1];
      assert order == init + [c] && c in order;
      BrokenUnlock(g, t, id, init);
      OpensPending(g, t);
      ChildReleased(g, t, Unlock(g, t, init), id, c);
    }
  }

  lemma ChildReleased(g: Shape, t: States, u: States, id: string, c: string)
    requires Fits(g, t) && Fits(g, u) && id in t && t[id].IsBroken() && g.Edge(id, c)
    requires forall x :: x in t && u[x] != t[x] ==> t[x] == Pending && u[x] == Ready
    ensures forall x :: x in t && x != c ==> UnlockChild(g, u, c)[x] == u[x]
    ensures UnlockChild(g, u, c)[c] == if u[c] == t[c] && Opens(g, t, c) then Ready else u[c]
  {
    hide AnyDepFailed, AllDepsPassed, AllDepsTerminal;
    BrokenParent(g, u, id, c);
    SameTerminal(g, t, u, c);
  }

  lemma BrokenParent(g: Shape, u: States, id: string, c: string)
    requires Fits(g, u) && id in u && u[id].IsBroken() && g.Edge(id, c)
    ensures AnyDepFailed(g, u, c) && !AllDepsPassed(g, u, c)
  {
    assert id in g.deps[c];
  }

  lemma SameTerminal(g: Shape, t: States, u: States, c: string)
    requires Fits(g, t) && Fits(g, u) && c in t
    requires forall x :: x in t && u[x] != t[x] ==> t[x] == Pending && u[x] == Ready
    ensures AllDepsTerminal(g, t, c) <==> AllDepsTerminal(g, u, c)
  {
  }

  ghost predicate AllRunning(s: States, tasks: set<string>) {
    forall p :: p in tasks ==> p in s && s[p] == Running
  }

  /** Running tasks are not below one another. */
  lemma RunningNotBelow(g: Shape, s: States, failed: set<string>, x: string)
    requires Inv(g, s) && AllRunning(s, failed) && x in s && s[x] == Running
    ensures !Below(g, s, failed, x)
  {
    if p :| p in failed && SkipReach(g, s, p, x) {
      CascadeMeetsOnlyPending(g, s, p, x);
    }
  }

  /** What the next cascade can pass through. */
  lemma StillSkippable(g: Shape, s: States, failed: set<string>, t: string)
    requires Fits(g, s)
    ensures var mid := FailAll(g, s, failed)[t := Failed];
      forall y :: Skippable(g, mid, y) <==>
        Skippable(g, s, y) && y != t && y !in failed && !Below(g, s, failed, y)
  {
    hide Shape.Valid, Below;
  }

  /** The cascade of one more task meets what is left by those of the others. */
  lemma BelowOneMore(g: Shape, s: States, failed: set<string>, t: string, x: string)
    requires Inv(g, s) && AllRunning(s, failed + {t}) && t !in failed
    ensures Below(g, s, failed + {t}, x) <==>
            Below(g, s, failed, x) || SkipReach(g, FailAll(g, s, failed)[t := Failed], t, x)
  {
    hide FailAll, InvExcept, SkipReach, Skippable;
    InvFits(g, s);
    StillSkippable(g, s, failed, t);
    var mid := FailAll(g, s, failed)[t := Failed];
    if SkipReach(g, mid, t, x) {
      SkipReachAntitone(g, s, mid, t, x);
      assert t in failed + {t};
    }
    if SkipReach(g, s, t, x) {
      var skipped := set y | y in s && (Below(g, s, failed, y) || SkipReach(g, mid, t, y));
      CascadesMeet(g, s, failed, t, skipped);
      ClosedContains(g, s, t, skipped, x);
      assert x in skipped;
    }
  }

  lemma CascadesMeet(g: Shape, s: States, failed: set<string>, t: string, skipped: set<string>)
    requires Inv(g, s) && AllRunning(s, failed + {t}) && t !in failed
    requires var mid := FailAll(g, s, failed)[t := Failed];
      skipped == set y | y in s && (Below(g, s, failed, y) || SkipReach(g, mid, t, y))
    ensures Closed(g, s, t, skipped)
  {
    hide FailAll, InvExcept, SkipReach;
    InvFits(g, s);
    StillSkippable(g, s, failed, t);
    var mid := FailAll(g, s, failed)[t := Failed];
    forall x, c | (x == t || x in skipped) && g.Edge(x, c) && Skippable(g, s, c)
      ensures c in skipped
    {
      if p :| p in failed && SkipReach(g, s, p, x) {
        SkipReachAppend(g, s, p, x, c);
        assert Below(g, s, failed, c);
      } else if !Below(g, s, failed, c) {
        ChildNotRunning(g, s, failed, t, x, c);
        assert Skippable(g, mid, c);
        if x == t {
          SkipReachChild(g, mid, t, c);
        } else {
          SkipReachAppend(g, mid, t, x, c);
        }
      }
    }
  }

  /** Below an unfinished task nothing runs. */
  lemma ChildNotRunning(g: Shape, s: States, failed: set<string>, t: string, x: string, c: string)
    requires Inv(g, s) && AllRunning(s, failed + {t}) && g.Edge(x, c)
    requires x == t || SkipReach(g, FailAll(g, s, failed)[t := Failed], t, x)
    ensures c !in failed && c != t
  {
    if x != t {
      ReachedIsSkippable(g, FailAll(g, s, failed)[t := Failed], t, x);
    }
    assert x in s && !s[x].IsTerminal() && c in s;
  }

  lemma SkippedIsDefault(g: Shape, s: States, failed: set<string>, x: string)
    requires Fits(g, s) && Below(g, s, failed, x)
    ensures x in s && g.Default(x) && g.deps[x] != {} && !s[x].IsTerminal()
  {
    var p :| p in failed && SkipReach(g, s, p, x);
    var path :| SkipPath(g, s, path) && path[0] == p && path[|path| - 1] == x;
    assert g.Edge(path[|path| - 2], x) && Skippable(g, s, x);
  }

  /** One more task fails, of those that run. */
  ghost predicate MayFail(g: Shape, s: States, failed: set<string>, t: string) {
    && Fits(g, s) && Inv(g, s) && NoneSkippedAbove(g) && AllRunning(s, failed + {t}) && t !in failed && t in s
  }

  /** After its cascade, exactly the tasks below it and the others are skipped. */
  lemma CascadeOneMore(g: Shape, s: States, failed: set<string>, t: string, x: string)
    requires MayFail(g, s, failed, t) && x in s
    ensures FailAll(g, s, failed)[t] == Running
    ensures Settle(g, FailAll(g, s, failed), t, Failed)[x] ==
      if x in failed + {t} then Failed
      else if Below(g, s, failed + {t}, x) then Skipped
      else FailAll(g, s, failed)[x]
  {
    hide InvExcept, SkipReach, Below, Shape.Valid, NoneSkippedAbove, AllDepsTerminal;
    RunningNotBelow(g, s, failed, t);
    BelowOneMore(g, s, failed, t, x);
    var mid := FailAll(g, s, failed)[t := Failed];
    ReachedIsSkippable(g, mid, t, x);
    if x in failed {
      RunningNotBelow(g, s, failed, x);
    }
  }

  /** A child's parents are then all finished if each of them fails or was finished. */
  lemma OpensThen(g: Shape, s: States, failed: set<string>, t: string, x: string)
    requires MayFail(g, s, failed, t) && g.Edge(t, x) && x in s
    requires x !in failed + {t} && !Below(g, s, failed + {t}, x) && !Released(g, s, failed, x)
    ensures Opens(g, Settle(g, FailAll(g, s, failed), t, Failed), x) <==> Released(g, s, failed + {t}, x)
  {
    hide Settle, Inv, SkipReach;
    var r := Settle(g, FailAll(g, s, failed), t, Failed);
    CascadeOneMore(g, s, failed, t, x);
    assert t in failed + {t};
    if !g.Default(x) {
      forall q | q in g.deps[x]
        ensures r[q].IsTerminal() <==> q in failed + {t} || s[q].IsTerminal()
      {
        assert g.Edge(q, x);
        CascadeOneMore(g, s, failed, t, q);
        ParentNotSkipped(g, s, failed + {t}, q, x);
      }
    }
  }

  lemma ParentNotSkipped(g: Shape, s: States, failed: set<string>, q: string, x: string)
    requires Fits(g, s) && NoneSkippedAbove(g) && g.Edge(q, x) && !g.Default(x)
    ensures !Below(g, s, failed, q)
  {
    if Below(g, s, failed, q) {
      SkippedIsDefault(g, s, failed, q);
    }
  }

  /** What is not a child of the task is released by the others or not at all. */
  lemma OtherChild(g: Shape, s: States, failed: set<string>, t: string, x: string)
    requires Fits(g, s) && x in s && !g.Edge(t, x)
    ensures Released(g, s, failed + {t}, x) <==> Released(g, s, failed, x)
  {
    forall q | q in g.deps[x]
      ensures g.Edge(q, x) && q != t
    {
      assert g.Edge(q, x);
    }
  }

  lemma ReleasedStays(g: Shape, s: States, failed: set<string>, t: string, x: string)
    requires Fits(g, s) && x in s && Released(g, s, failed, x)
    ensures Released(g, s, failed + {t}, x)
  {
    var p :| p in failed && g.Edge(p, x);
    assert p in failed + {t};
  }

  lemma FailOneAt(g: Shape, s: States, failed: set<string>, t: string, order: seq<string>, x: string)
    requires MayFail(g, s, failed, t) && IsListing(order, g.edges[t]) && x in s
    ensures Finish(g, FailAll(g, s, failed), t, Failed, order)[x] == FailAll(g, s, failed + {t})[x]
  {
    hide Settle, Inv, Below, Released, Opens, SkipReach;
    var u := FailAll(g, s, failed);
    CascadeOneMore(g, s, failed, t, x);
    CascadeOneMore(g, s, failed, t, t);
    Children(g, t, order);
    BrokenUnlock(g, Settle(g, u, t, Failed), t, order);
    SettledOpens(g, s, failed, t, x);
    if x !in failed + {t} && !Below(g, s, failed + {t}, x) {
      if Released(g, s, failed, x) {
        ReleasedStays(g, s, failed, t, x);
      } else if g.Edge(t, x) {
        OpensThen(g, s, failed, t, x);
      } else {
        OtherChild(g, s, failed, t, x);
      }
      NotBelowFewer(g, s, failed, t, x);
    }
  }

  lemma Children(g: Shape, t: string, order: seq<string>)
    requires t in g.edges && IsListing(order, g.edges[t])
    ensures forall x :: x in order <==> g.Edge(t, x)
  {
    assert forall x :: x in order <==> x in Elements(order);
  }

  lemma NotBelowFewer(g: Shape, s: States, failed: set<string>, t: string, x: string)
    requires !Below(g, s, failed + {t}, x)
    ensures !Below(g, s, failed, x)
  {
    forall p | p in failed
      ensures !SkipReach(g, s, p, x)
    {
      assert p in failed + {t};
    }
  }

  /** What has failed, is skipped or is released is not open. */
  lemma SettledOpens(g: Shape, s: States, failed: set<string>, t: string, x: string)
    requires MayFail(g, s, failed, t) && x in s
    ensures var r := Settle(g, FailAll(g, s, failed), t, Failed);
      && (r[x] != Pending ==> !Opens(g, r, x))
      && (Released(g, s, failed + {t}, x) ==> s[x] == Pending)
      && (Released(g, s, failed, x) ==> s[x] == Pending)
  {
    hide Settle;
  }

  /** Failing one task after others is failing them all, whatever the map order of its children. */
  lemma FailOne(g: Shape, s: States, failed: set<string>, t: string, order: seq<string>)
    requires MayFail(g, s, failed, t) && IsListing(order, g.edges[t])
    ensures Finish(g, FailAll(g, s, failed), t, Failed, order) == FailAll(g, s, failed + {t})
  {
    hide FailAll, Finish, Inv;
    forall x | x in s
      ensures Finish(g, FailAll(g, s, failed), t, Failed, order)[x] == FailAll(g, s, failed + {t})[x]
    {
      FailOneAt(g, s, failed, t, order, x);
    }
  }

  lemma NoneFail(g: Shape, s: States)
    requires Fits(g, s)
    ensures FailAll(g, s, {}) == s
  {
  }

  // ----- all tasks that are lost with a worker -----

  /** The lost tasks of a build that were running. */
  ghost function Hit(v: View, lost: seq<string>, b: string): set<string>
    requires b in v.builds
  {
    set x | x in v.builds[b].states && x in lost && OwnerOf(v, x) == b && v.builds[b].states[x] == Running
  }

  ghost function BuildAfter(v: View, lost: seq<string>, b: string): BuildView
    requires v.Valid() && b in v.builds
  {
    v.builds[b].(states := FailAll(v.builds[b].shape, v.builds[b].states, Hit(v, lost, b)))
  }

  /** The death of a worker as a function of the set of its tasks. */
  ghost function AfterLosses(v: View, lost: seq<string>): View
    requires v.Valid()
  {
    v.(builds := map b | b in v.builds :: BuildAfter(v, lost, b), taskWorker := v.taskWorker - Elements(lost))
  }

  ghost predicate NoneSkippedAnywhere(v: View)
    requires v.Valid()
  {
    forall b :: b in v.builds ==> NoneSkippedAbove(v.builds[b].shape)
  }

  lemma HitOneMore(v: View, lost: seq<string>, t: string, b: string)
    requires b in v.builds
    ensures Hit(v, lost + [t], b) ==
      if t in v.builds[b].states && OwnerOf(v, t) == b && v.builds[b].states[t] == Running then Hit(v, lost, b) + {t}
      else Hit(v, lost, b)
  {
    assert forall x :: x in lost + [t] <==> x in lost || x == t;
  }

  /** The build of one more lost task. */
  lemma OwnerAfter(v: View, lost: seq<string>, t: string, order: seq<string>)
    requires Reachable(v) && NoneSkippedAnywhere(v) && OwnerOf(v, t) in v.builds
    requires var g := v.builds[OwnerOf(v, t)].shape; t in g.edges ==> IsListing(order, g.edges[t])
    ensures var b := OwnerOf(v, t);
      && Fits(v.builds[b].shape, BuildAfter(v, lost, b).states)
      && Finish(v.builds[b].shape, BuildAfter(v, lost, b).states, t, Failed, order) ==
           BuildAfter(v, lost + [t], b).states
  {
    hide FailAll, IsListing, NoneSkippedAbove, Inv;
    var b := OwnerOf(v, t);
    var g, s, failed := v.builds[b].shape, v.builds[b].states, Hit(v, lost, b);
    assert Fits(g, s) && Inv(g, s) && NoneSkippedAbove(g);
    HitOneMore(v, lost, t, b);
    if t in s && s[t] == Running && t !in failed {
      FailOne(g, s, failed, t, order);
    } else {
      NotRunning(g, s, failed, t);
      assert failed + {t} == failed || !(t in s && s[t] == Running);
      hide Finish;
      FinishRefused(g, FailAll(g, s, failed), t, order);
    }
  }

  lemma NotRunning(g: Shape, s: States, failed: set<string>, t: string)
    requires Fits(g, s)
    ensures t in s && FailAll(g, s, failed)[t] == Running ==> s[t] == Running && t !in failed
  {
  }

  lemma FinishRefused(g: Shape, s: States, t: string, order: seq<string>)
    requires Fits(g, s) && (t in s ==> s[t] != Running)
    ensures Finish(g, s, t, Failed, order) == s
  {
  }

  lemma OneMoreLoss(v: View, lost: seq<string>, t: string, order: seq<string>)
    requires Reachable(v) && NoneSkippedAnywhere(v) && AfterLosses(v, lost).Valid()
    requires Permitted(WithoutTask(AfterLosses(v, lost), t), Report(OwnerOf(v, t), t, Failed, order))
    ensures Next(WithoutTask(AfterLosses(v, lost), t), Report(OwnerOf(v, t), t, Failed, order)) ==
              AfterLosses(v, lost + [t])
  {
    hide Next, View.Valid, Finish, BuildAfter, NoneSkippedAnywhere, Reachable, IsListing, FailAll;
    ReachableValid(v);
    var u, b := AfterLosses(v, lost), OwnerOf(v, t);
    ShapeAfter(v, lost);
    OwnerAfter(v, lost, t, order);
    ReportIs(WithoutTask(u, t), Report(b, t, Failed, order));
    ShapeAfter(v, lost + [t]);
    hide Permitted, OwnerOf;
    LossesNow(v, lost, t, Next(WithoutTask(u, t), Report(b, t, Failed, order)));
  }

  lemma LossesNow(v: View, lost: seq<string>, t: string, r: View)
    requires v.Valid() && OwnerOf(v, t) in v.builds && AfterLosses(v, lost).Valid()
    requires var u, b := WithoutTask(AfterLosses(v, lost), t), OwnerOf(v, t);
      r == u.(builds := u.builds[b := BuildAfter(v, lost + [t], b)])
    ensures r == AfterLosses(v, lost + [t])
  {
    hide BuildAfter, View.Valid, OwnerOf;
    forall c | c in v.builds
      ensures r.builds[c] == BuildAfter(v, lost + [t], c)
    {
      OthersAfter(v, lost, t, c);
    }
    assert r.builds == map c | c in v.builds :: BuildAfter(v, lost + [t], c);
    assert Elements(lost + [t]) == Elements(lost) + {t};
    assert r.taskWorker == v.taskWorker - Elements(lost + [t]);
  }

  lemma ShapeAfter(v: View, lost: seq<string>)
    requires v.Valid()
    ensures forall b :: b in v.builds ==> BuildAfter(v, lost, b).shape == v.builds[b].shape
  {
  }

  lemma OthersAfter(v: View, lost: seq<string>, t: string, c: string)
    requires v.Valid() && c in v.builds
    ensures c != OwnerOf(v, t) ==> BuildAfter(v, lost + [t], c) == BuildAfter(v, lost, c)
  {
    HitOneMore(v, lost, t, c);
    hide FailAll;
  }

  /** The death of a worker, if no task with a condition is below one that a cascade can skip: all
      its running tasks fail at once, with one cascade from all of them, and the tasks with a
      condition that this leaves with finished parents alone are released. */
  lemma {:induction false} LossesAre(v: View, lost: seq<string>, orders: seq<seq<string>>)
    requires Reachable(v) && NoneSkippedAnywhere(v) && |orders| == |lost| && PermittedRun(v, Losses(v, lost, orders))
    ensures After(v, Losses(v, lost, orders)) == AfterLosses(v, lost)
    decreases |lost|
  {
    hide Reachable, View.Valid, Next, Permitted, After, PermittedRun, Losses, OwnerOf, NoneSkippedAnywhere, AfterLosses;
    ReachableValid(v);
    if lost == [] {
      NothingLost(v, orders);
      NoLosses(v, lost);
    } else {
      var n := |lost| - 1;
      var run, t := Losses(v, lost[..n], orders[..n]), lost[n];
      LossesUnfold(v, lost, orders);
      TwoSteps(v, run, Forget(t), Report(OwnerOf(v, t), t, Failed, orders[n]));
      ForgetStep(After(v, run), t);
      LossesAre(v, lost[..n], orders[..n]);
      OneMoreLoss(v, lost[..n], t, orders[n]);
      assert lost[..n] + [t] == lost;
    }
  }

  lemma NoLosses(v: View, lost: seq<string>)
    requires v.Valid() && lost == []
    ensures AfterLosses(v, lost) == v
  {
    forall b | b in v.builds
      ensures BuildAfter(v, lost, b) == v.builds[b]
    {
      assert Hit(v, lost, b) == {};
      NoneFail(v.builds[b].shape, v.builds[b].states);
    }
    assert v.taskWorker - Elements(lost) == v.taskWorker;
    assert (map b | b in v.builds :: BuildAfter(v, lost, b)) == v.builds;
  }

  /** So the order in which HandleDeadWorker comes to the tasks cannot be seen then, nor can those
      in which the children of each are visited. */
  lemma LossOrderInvisible(v: View, lost: seq<string>, orders: seq<seq<string>>, other: seq<string>,
                           others: seq<seq<string>>)
    requires Reachable(v) && NoneSkippedAnywhere(v) && |orders| == |lost| && |others| == |other|
    requires PermittedRun(v, Losses(v, lost, orders)) && PermittedRun(v, Losses(v, other, others))
    requires Elements(lost) == Elements(other)
    ensures After(v, Losses(v, lost, orders)) == After(v, Losses(v, other, others))
  {
    hide Reachable, View.Valid, After, PermittedRun, Losses, NoneSkippedAnywhere, AfterLosses;
    ReachableValid(v);
    LossesAre(v, lost, orders);
    LossesAre(v, other, others);
    SameLosses(v, lost, other);
  }

  lemma SameLosses(v: View, lost: seq<string>, other: seq<string>)
    requires v.Valid() && Elements(lost) == Elements(other)
    ensures AfterLosses(v, lost) == AfterLosses(v, other)
  {
    hide BuildAfter, View.Valid;
    forall b | b in v.builds
      ensures BuildAfter(v, lost, b) == BuildAfter(v, other, b)
    {
      SameBuild(v, lost, other, b);
    }
    assert (map b | b in v.builds :: BuildAfter(v, lost, b)) == map b | b in v.builds :: BuildAfter(v, other, b);
  }

  lemma SameBuild(v: View, lost: seq<string>, other: seq<string>, b: string)
    requires v.Valid() && b in v.builds && Elements(lost) == Elements(other)
    ensures BuildAfter(v, lost, b) == BuildAfter(v, other, b)
  {
    hide FailAll;
    assert forall x :: x in lost <==> x in Elements(lost);
    assert forall x :: x in other <==> x in Elements(other);
    assert Hit(v, lost, b) == Hit(v, other, b);
  }
}

