/** What becomes of each child of a finished task, whatever the order in which they are visited. */
module ChildVerdicts {
  import opened Collections
  import opened Tasks
  import opened GraphSpec
  import opened UnlockOrder

  /** Visiting children writes only those that are visited and still Pending. */
  lemma {:induction false} UnlockKeeps(g: Shape, t: States, order: seq<string>)
    requires Fits(g, t)
    ensures forall x :: x in t && (t[x] != Pending || x !in order) ==> Unlock(g, t, order)[x] == t[x]
    decreases |order|
  {
    if order != [] {
      var init, c := order[..|order| - 1], order[|order| - 1];
      UnlockKeeps(g, t, init);
      UnlockOnly(g, Unlock(g, t, init), c);
      assert forall x :: x in init ==> x in order;
      OnlyPending(g, Unlock(g, t, init), c);
      hide UnlockChild;
    }
  }

  lemma OnlyPending(g: Shape, s: States, c: string)
    requires Fits(g, s)
    ensures c !in s || s[c] != Pending ==> UnlockChild(g, s, c) == s
  {
  }

  /** A child whose parents are all finished is decided when it is visited, for good. */
  lemma {:induction false} DecidedOnce(g: Shape, t: States, order: seq<string>, c: string)
    requires Fits(g, t) && Distinct(order) && c in order && c in t && t[c] == Pending && AllDepsTerminal(g, t, c)
    ensures Unlock(g, t, order)[c] == UnlockChild(g, t, c)[c]
    decreases |order|
  {
    hide UnlockChild;
    var init, last := order[..|order| - 1], order[|order| - 1];
    assert order == init + [last];
    if c == last {
      UnlockKeeps(g, t, init);
      SameParents(g, t, Unlock(g, t, init), c);
    } else {
      DecidedOnce(g, t, init, c);
      UnlockOnly(g, Unlock(g, t, init), last);
    }
  }

  /** The verdict of a child's condition on the states of its parents. */
  ghost predicate Called(g: Shape, s: States, c: string, verdict: TaskState)
    requires Fits(g, s) && c in s
  {
    && AllDepsTerminal(g, s, c)
    && match g.policy[c]
       case Always => verdict == Ready
       case OnFailure => verdict == if AnyDepFailed(g, s, c) then Ready else Skipped
       case OnSuccess => verdict == Ready && AllDepsPassed(g, s, c)
  }

  lemma CalledLater(g: Shape, s: States, t: States, c: string, verdict: TaskState)
    requires Fits(g, s) && Fits(g, t) && c in s && Called(g, s, c, verdict)
    requires forall x :: x in s && s[x].IsTerminal() ==> t[x] == s[x]
    ensures Called(g, t, c, verdict)
  {
    assert forall p :: p in g.deps[c] ==> t[p] == s[p];
  }

  lemma CalledNow(g: Shape, s: States, c: string)
    requires Fits(g, s) && c in s && UnlockChild(g, s, c)[c] != s[c]
    ensures s[c] == Pending && Called(g, s, c, UnlockChild(g, s, c)[c])
  {
  }

  lemma Unvisited(g: Shape, s: States, order: seq<string>, c: string)
    requires Fits(g, s) && order != [] && order[|order| - 1] == c
    ensures Unlock(g, s, order) == UnlockChild(g, Unlock(g, s, order[..|order| - 1]), c)
  {
  }

  lemma TerminalsKept(g: Shape, s: States, c: string)
    requires Fits(g, s)
    ensures forall x :: x in s && s[x].IsTerminal() ==> UnlockChild(g, s, c)[x] == s[x]
  {
    hide UnlockChild;
    UnlockOnly(g, s, c);
    OnlyPending(g, s, c);
  }

  /** What the visits change, they change as the condition of the child says. */
  lemma {:induction false} CalledByCondition(g: Shape, t: States, order: seq<string>, c: string)
    requires Fits(g, t) && c in t && Unlock(g, t, order)[c] != t[c]
    ensures c in order && t[c] == Pending && Called(g, Unlock(g, t, order), c, Unlock(g, t, order)[c])
    decreases |order|
  {
    hide UnlockChild, Called, Unlock;
    UnlockKeeps(g, t, order);
    if order == [] {
      NoneVisited(g, t);
    } else {
      var init, last := order[..|order| - 1], order[|order| - 1];
      var u := Unlock(g, t, init);
      Unvisited(g, t, order, last);
      UnlockOnly(g, u, last);
      OnlyPending(g, u, last);
      TerminalsKept(g, u, last);
      if u[c] != t[c] {
        CalledByCondition(g, t, init, c);
        CalledSomehow(g, u, c);
        CalledLater(g, u, Unlock(g, t, order), c, u[c]);
      } else {
        CalledNow(g, u, c);
        CalledLater(g, u, Unlock(g, t, order), c, Unlock(g, t, order)[c]);
      }
    }
  }

  lemma NoneVisited(g: Shape, t: States)
    requires Fits(g, t)
    ensures Unlock(g, t, []) == t
  {
  }

  lemma CalledSomehow(g: Shape, s: States, c: string)
    requires Fits(g, s) && c in s && Called(g, s, c, s[c])
    ensures s[c] == Ready || s[c] == Skipped
  {
  }

  // ----- the finished task's children, from any state -----

  /** The cascade changes neither what was finished nor what has a condition. */
  lemma SettleKeeps(g: Shape, s: States, id: string, outcome: TaskState)
    requires Fits(g, s) && id in s && CanMove(s[id], outcome) && outcome.IsTerminal()
    ensures var t := Settle(g, s, id, outcome);
      && t[id] == outcome && (!outcome.IsBroken() ==> t == s[id := outcome])
      && forall x :: x in s && x != id && t[x] != s[x] ==>
           outcome.IsBroken() && t[x] == Skipped && SkipReach(g, s[id := outcome], id, x)
           && !s[x].IsTerminal() && g.Default(x)
  {
    hide SkipReach;
    var mid := s[id := outcome];
    NotItself(g, mid, id);
    forall x | SkipReach(g, mid, id, x)
      ensures Skippable(g, mid, x)
    {
      ReachedIsSkippable(g, mid, id, x);
    }
  }

  lemma SettleSkips(g: Shape, s: States, id: string, outcome: TaskState, c: string)
    requires Fits(g, s) && id in s && outcome.IsBroken() && g.Edge(id, c) && s[c] == Pending && g.Default(c)
    ensures Settle(g, s, id, outcome)[c] == Skipped
  {
    SkipReachChild(g, s[id := outcome], id, c);
  }

  lemma FinishIs(g: Shape, s: States, id: string, outcome: TaskState, order: seq<string>)
    requires Fits(g, s) && id in s && CanMove(s[id], outcome)
    ensures Finish(g, s, id, outcome, order) == Unlock(g, Settle(g, s, id, outcome), order)
  {
  }

  lemma ListsAll(g: Shape, id: string, order: seq<string>, c: string)
    requires g.Valid() && id in g.edges && IsListing(order, g.edges[id])
    ensures Distinct(order) && (c in order <==> g.Edge(id, c)) && !g.Edge(id, id)
  {
    assert c in order <==> c in Elements(order);
  }

  /** A waiting child whose other parents are finished: what its condition says decides at once. */
  lemma FinishedChild(g: Shape, s: States, id: string, outcome: TaskState, order: seq<string>, c: string)
    requires Fits(g, s) && id in s && CanMove(s[id], outcome) && outcome.IsTerminal()
    requires IsListing(order, g.edges[id]) && g.Edge(id, c) && s[c] == Pending
    requires forall p :: p in g.deps[c] && p != id ==> s[p].IsTerminal()
    ensures var u := Finish(g, s, id, outcome, order);
      && c in u && (forall p :: p in g.deps[c] ==> u[p] == if p == id then outcome else s[p])
      && match g.policy[c]
         case Always => u[c] == Ready
         case OnFailure => u[c] == if AnyDepFailed(g, u, c) then Ready else Skipped
         case OnSuccess => u[c] == if outcome.IsBroken() then Skipped
                                   else if AllDepsPassed(g, u, c) then Ready else Pending
  {
    hide Settle, Unlock, UnlockChild, IsListing, Finish, SkipReach, CanMove;
    var t := Settle(g, s, id, outcome);
    ListsAll(g, id, order, c);
    FinishIs(g, s, id, outcome, order);
    SettleKeeps(g, s, id, outcome);
    UnlockKeeps(g, t, order);
    if outcome.IsBroken() && g.Default(c) {
      SettleSkips(g, s, id, outcome, c);
    } else {
      DecidedOnce(g, t, order, c);
      VerdictNow(g, t, c);
      SameVerdict(g, t, Finish(g, s, id, outcome, order), c);
    }
  }

  lemma VerdictNow(g: Shape, t: States, c: string)
    requires Fits(g, t) && c in t && t[c] == Pending && AllDepsTerminal(g, t, c)
    ensures UnlockChild(g, t, c)[c] ==
      match g.policy[c]
      case Always => Ready
      case OnFailure => if AnyDepFailed(g, t, c) then Ready else Skipped
      case OnSuccess => if AllDepsPassed(g, t, c) then Ready else Pending
  {
  }

  lemma SameVerdict(g: Shape, t: States, u: States, c: string)
    requires Fits(g, t) && Fits(g, u) && c in t && forall p :: p in g.deps[c] ==> u[p] == t[p]
    ensures AnyDepFailed(g, t, c) == AnyDepFailed(g, u, c) && AllDepsPassed(g, t, c) == AllDepsPassed(g, u, c)
  {
  }

  /** Apart from the finished task, only tasks that the cascade reaches are changed, and waiting
      children as their conditions say. */
  lemma ChangedBy(g: Shape, s: States, id: string, outcome: TaskState, order: seq<string>, x: string)
    requires Fits(g, s) && id in s && CanMove(s[id], outcome) && outcome.IsTerminal()
    requires IsListing(order, g.edges[id]) && x in s
    ensures var u := Finish(g, s, id, outcome, order);
      && u[id] == outcome
      && (x != id && u[x] != s[x] ==>
            || (outcome.IsBroken() && u[x] == Skipped && SkipReach(g, s[id := outcome], id, x))
            || (g.Edge(id, x) && s[x] == Pending && Called(g, u, x, u[x])))
  {
    hide Settle, Unlock, UnlockChild, IsListing, Finish, SkipReach, CanMove, Called;
    var t := Settle(g, s, id, outcome);
    ListsAll(g, id, order, x);
    FinishIs(g, s, id, outcome, order);
    SettleKeeps(g, s, id, outcome);
    UnlockKeeps(g, t, order);
    if Unlock(g, t, order)[x] != t[x] {
      CalledByCondition(g, t, order, x);
    }
  }

  /** The tasks that become Ready are the same seen from before the cascade. */
  lemma ReadySeen(g: Shape, s: States, id: string, outcome: TaskState, order: seq<string>, x: string)
    requires Fits(g, s) && id in s && CanMove(s[id], outcome) && outcome.IsTerminal()
    requires IsListing(order, g.edges[id]) && x in s
    ensures var t, u := Settle(g, s, id, outcome), Finish(g, s, id, outcome, order);
      x in order && t[x] == Pending && Unlock(g, t, order)[x] == Ready <==>
        g.Edge(id, x) && s[x] == Pending && u[x] == Ready
  {
    hide Settle, Unlock, UnlockChild, IsListing, Finish, SkipReach, CanMove;
    var t := Settle(g, s, id, outcome);
    ListsAll(g, id, order, x);
    FinishIs(g, s, id, outcome, order);
    SettleKeeps(g, s, id, outcome);
    UnlockKeeps(g, t, order);
  }
}
