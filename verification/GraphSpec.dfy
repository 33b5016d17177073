/** What the operations of pkg/dag/graph.go do, as functions from the states of the tasks
    before to the states after, for a graph whose shape is fixed. */
module GraphSpec {
  import opened Collections
  import opened Tasks

  type States = map<string, TaskState>

  /** The part of a graph that does not change once it is built. */
  datatype Shape = Shape(
    policy: map<string, Policy>,
    need: map<string, Need>,
    edges: map<string, set<string>>,  // parent -> children
    deps: map<string, set<string>>)   // child -> parents
  {
    function Ids(): set<string> {
      edges.Keys
    }

    ghost predicate Edge(p: string, c: string) {
      p in edges && c in edges[p]
    }

    /** edges and deps are each other's mirror, and range over the tasks of the graph. */
    ghost predicate Valid() {
      && policy.Keys == edges.Keys == deps.Keys == need.Keys
      && (forall p, c :: Edge(p, c) ==> c in deps && p in deps[c])
      && (forall p, c :: c in deps && p in deps[c] ==> Edge(p, c))
      && (forall p :: !Edge(p, p))
    }

    /** The shape with one more task, joined to nothing. */
    function WithTask(x: string, p: Policy, n: Need): Shape {
      Shape(policy[x := p], need[x := n], edges[x := {}], deps[x := {}])
    }

    /** The shape with one more dependency. */
    function WithEdge(p: string, c: string): Shape
      requires p in edges && c in deps
    {
      this.(edges := edges[p := edges[p] + {c}], deps := deps[c := deps[c] + {p}])
    }

    predicate Default(x: string) requires x in policy {
      policy[x] == OnSuccess
    }
  }

  lemma WithTaskValid(g: Shape, x: string, p: Policy, n: Need)
    requires g.Valid() && x !in g.edges
    ensures g.WithTask(x, p, n).Valid()
    ensures forall a, b :: g.WithTask(x, p, n).Edge(a, b) <==> g.Edge(a, b)
  {
    var h := g.WithTask(x, p, n);
    forall a, b
      ensures h.Edge(a, b) <==> g.Edge(a, b)
      ensures b in h.deps && a in h.deps[b] <==> b in g.deps && a in g.deps[b]
    {
    }
  }

  lemma WithEdgeValid(g: Shape, p: string, c: string)
    requires g.Valid() && p in g.edges && c in g.edges && p != c
    ensures g.WithEdge(p, c).Valid()
    ensures forall a, b :: g.WithEdge(p, c).Edge(a, b) <==> g.Edge(a, b) || (a == p && b == c)
  {
    var h := g.WithEdge(p, c);
    forall a, b
      ensures h.Edge(a, b) <==> g.Edge(a, b) || (a == p && b == c)
      ensures b in h.deps && a in h.deps[b] <==> (b in g.deps && a in g.deps[b]) || (a == p && b == c)
    {
    }
  }

  ghost predicate Fits(g: Shape, s: States) {
    g.Valid() && s.Keys == g.edges.Keys
  }

  ghost predicate AllDepsTerminal(g: Shape, s: States, x: string)
    requires Fits(g, s) && x in s
  {
    forall p :: p in g.deps[x] ==> s[p].IsTerminal()
  }

  ghost predicate AllDepsPassed(g: Shape, s: States, x: string)
    requires Fits(g, s) && x in s
  {
    forall p :: p in g.deps[x] ==> s[p] == Passed
  }

  ghost predicate AnyDepFailed(g: Shape, s: States, x: string)
    requires Fits(g, s) && x in s
  {
    exists p :: p in g.deps[x] && s[p].IsBroken()
  }

  // ----- MarkReady and Cancel -----

  /** Every Pending task whose parents have all Passed becomes Ready. */
  ghost function MarkReadyAll(g: Shape, s: States): (r: States)
    requires Fits(g, s)
    ensures r.Keys == s.Keys
  {
    map x | x in s :: if s[x] == Pending && AllDepsPassed(g, s, x) then Ready else s[x]
  }

  ghost function CancelAll(s: States): (r: States)
    ensures r.Keys == s.Keys
  {
    map x | x in s :: if s[x].IsTerminal() then s[x] else Cancelled
  }

  // ----- the skip cascade -----

  /** What skipDownstream passes through: an unfinished task with the default condition. */
  predicate Skippable(g: Shape, s: States, x: string) {
    x in s && x in g.policy && !s[x].IsTerminal() && g.Default(x)
  }

  /** A path along edges whose every node after the first is Skippable. */
  ghost predicate SkipPath(g: Shape, s: States, path: seq<string>) {
    && |path| >= 2
    && (forall i :: 0 < i < |path| ==> g.Edge(path[i - 1], path[i]) && Skippable(g, s, path[i]))
  }

  ghost predicate SkipReach(g: Shape, s: States, from: string, to: string) {
    exists path :: SkipPath(g, s, path) && path[0] == from && path[|path| - 1] == to
  }

  ghost function Cascade(g: Shape, s: States, from: string): (r: States)
    ensures r.Keys == s.Keys
  {
    map x | x in s :: if SkipReach(g, s, from, x) then Skipped else s[x]
  }

  // ----- Complete -----

  /** One child of the finished task: decide by its condition whether it runs. */
  ghost function UnlockChild(g: Shape, s: States, c: string): (r: States)
    requires Fits(g, s)
    ensures Fits(g, r)
  {
    if c !in s || s[c] != Pending || !AllDepsTerminal(g, s, c) then s
    else
      match g.policy[c]
      case OnFailure => s[c := if AnyDepFailed(g, s, c) then Ready else Skipped]
      case Always => s[c := Ready]
      case OnSuccess => if AllDepsPassed(g, s, c) then s[c := Ready] else s
  }

  /** The children, visited in the order of the listing. */
  ghost function Unlock(g: Shape, s: States, order: seq<string>): (r: States)
    requires Fits(g, s)
    ensures Fits(g, r)
  {
    if order == [] then s
    else UnlockChild(g, Unlock(g, s, order[..|order| - 1]), order[|order| - 1])
  }

  /** A broken task starts the cascade. */
  ghost function Spread(g: Shape, s: States, id: string, outcome: TaskState): (r: States)
    requires Fits(g, s)
    ensures Fits(g, r)
  {
    if outcome.IsBroken() then Cascade(g, s, id) else s
  }

  /** The finished task takes its outcome, with what follows from it. */
  ghost function Settle(g: Shape, s: States, id: string, outcome: TaskState): (r: States)
    requires Fits(g, s) && id in s
    ensures Fits(g, r)
  {
    Spread(g, s[id := outcome], id, outcome)
  }

  /** Complete, when Go ranges over the children in the given order. */
  ghost function Finish(g: Shape, s: States, id: string, outcome: TaskState, order: seq<string>): (r: States)
    requires Fits(g, s)
    ensures Fits(g, r)
  {
    if id in s && CanMove(s[id], outcome)
    then Unlock(g, Settle(g, s, id, outcome), order)
    else s
  }

  predicate Finished(s: States) {
    forall x :: x in s ==> s[x].IsTerminal()
  }

  /** The tasks whose states differ. */
  ghost function Changed(s: States, t: States): set<string> {
    set x | x in s && x in t && s[x] != t[x]
  }

  // ----- runs -----

  /** The steps of a run: the exported methods of Graph, and the two transitions that the
      scheduler makes on a task it dispatches. */
  datatype Event =
    | MarkReady
    | Assign(id: string)
    | Start(id: string)
    | Complete(id: string, outcome: TaskState, order: seq<string>)
    | Cancel

  ghost function Transition(s: States, id: string, target: TaskState): (r: States)
    ensures r.Keys == s.Keys
  {
    if id in s && CanMove(s[id], target) then s[id := target] else s
  }

  ghost function Step(g: Shape, s: States, e: Event): (r: States)
    requires Fits(g, s)
    ensures Fits(g, r)
  {
    match e
    case MarkReady => MarkReadyAll(g, s)
    case Assign(id) => Transition(s, id, Scheduled)
    case Start(id) => Transition(s, id, Running)
    case Complete(id, outcome, order) => Finish(g, s, id, outcome, order)
    case Cancel => CancelAll(s)
  }

  /** The outcomes a worker's report can carry once decoded. */
  predicate Reportable(outcome: TaskState) {
    outcome.IsTerminal() || outcome == Pending
  }

  ghost predicate Legal(g: Shape, e: Event) {
    e.Complete? ==>
      Reportable(e.outcome) && (e.id in g.edges ==> IsListing(e.order, g.edges[e.id]))
  }

  ghost predicate AllLegal(g: Shape, run: seq<Event>) {
    forall i :: 0 <= i < |run| ==> Legal(g, run[i])
  }

  ghost function Initial(g: Shape): (s: States)
    ensures s.Keys == g.edges.Keys
  {
    map x | x in g.edges :: Pending
  }

  ghost function Run(g: Shape, s: States, run: seq<Event>): (r: States)
    requires Fits(g, s)
    ensures Fits(g, r)
  {
    if run == [] then s
    else Step(g, Run(g, s, run[..|run| - 1]), run[|run| - 1])
  }

  // ----- facts about the cascade -----

  /** Finishing tasks only shrinks what can be skipped. */
  lemma SkipReachAntitone(g: Shape, s: States, t: States, from: string, to: string)
    requires forall x :: Skippable(g, t, x) ==> Skippable(g, s, x)
    requires SkipReach(g, t, from, to)
    ensures SkipReach(g, s, from, to)
  {
    var path :| SkipPath(g, t, path) && path[0] == from && path[|path| - 1] == to;
    assert SkipPath(g, s, path);
  }

  lemma SkipReachChild(g: Shape, s: States, from: string, c: string)
    requires g.Edge(from, c) && Skippable(g, s, c)
    ensures SkipReach(g, s, from, c)
  {
    assert SkipPath(g, s, [from, c]);
  }

  lemma SkipReachPrepend(g: Shape, s: States, from: string, c: string, to: string)
    requires g.Edge(from, c) && Skippable(g, s, c) && SkipReach(g, s, c, to)
    ensures SkipReach(g, s, from, to)
  {
    var path :| SkipPath(g, s, path) && path[0] == c && path[|path| - 1] == to;
    var longer := [from] + path;
    assert forall i :: 0 < i < |path| ==> longer[i + 1] == path[i];
    assert SkipPath(g, s, longer);
  }

  lemma SkipReachAppend(g: Shape, s: States, from: string, x: string, c: string)
    requires SkipReach(g, s, from, x) && g.Edge(x, c) && Skippable(g, s, c)
    ensures SkipReach(g, s, from, c)
  {
    var path :| SkipPath(g, s, path) && path[0] == from && path[|path| - 1] == x;
    assert SkipPath(g, s, path + [c]);
  }

  /** The skipped tasks leave nothing skippable below the task or below one another. */
  ghost predicate Closed(g: Shape, s: States, from: string, skipped: set<string>) {
    forall x, c :: (x == from || x in skipped) && g.Edge(x, c) && Skippable(g, s, c) ==> c in skipped
  }

  lemma ClosedContains(g: Shape, s: States, from: string, skipped: set<string>, x: string)
    requires Closed(g, s, from, skipped) && SkipReach(g, s, from, x)
    ensures x in skipped
  {
    var path :| SkipPath(g, s, path) && path[0] == from && path[|path| - 1] == x;
    var i := 1;
    assert g.Edge(path[0], path[1]);
    while i < |path| - 1
      invariant 1 <= i < |path| && path[i] in skipped
    {
      i := i + 1;
      assert g.Edge(path[i - 1], path[i]);
    }
  }

  /** Reachable tasks that leave nothing behind are all the reachable tasks. */
  lemma ClosedIsExact(g: Shape, s: States, from: string, skipped: set<string>)
    requires Closed(g, s, from, skipped)
    requires forall x :: x in skipped ==> SkipReach(g, s, from, x)
    ensures forall x :: x in skipped <==> SkipReach(g, s, from, x)
  {
    forall x | SkipReach(g, s, from, x)
      ensures x in skipped
    {
      ClosedContains(g, s, from, skipped, x);
    }
  }

  // ----- what Complete skips -----

  /** Visiting the children of a broken task skips none of them: their own conditions cannot. */
  lemma {:induction false} UnlockSkipsNone(g: Shape, t: States, id: string, order: seq<string>)
    requires Fits(g, t) && id in t && t[id].IsBroken() && forall x :: x in order ==> g.Edge(id, x)
    ensures Unlock(g, t, order)[id] == t[id]
    ensures forall x :: x in t ==> (Unlock(g, t, order)[x] == Skipped <==> t[x] == Skipped)
    decreases |order|
  {
    if order != [] {
      var init, c := order[..|order| - 1], order[|order| - 1];
      assert forall x :: x in init ==> x in order;
      UnlockSkipsNone(g, t, id, init);
      assert c in order && g.Edge(id, c);
      ChildOfBroken(g, Unlock(g, t, init), id, c);
      hide UnlockChild;
    }
  }

  lemma ChildOfBroken(g: Shape, s: States, id: string, c: string)
    requires Fits(g, s) && id in s && s[id].IsBroken() && g.Edge(id, c)
    ensures UnlockChild(g, s, c)[id] == s[id]
    ensures forall x :: x in s ==> (UnlockChild(g, s, c)[x] == Skipped <==> s[x] == Skipped)
  {
    assert id in g.deps[c] && AnyDepFailed(g, s, c);
    hide AnyDepFailed, AllDepsTerminal, AllDepsPassed;
  }

  /** After Complete with Failed or TimedOut, in any state and map order, the newly Skipped tasks
      are exactly those that the cascade reaches. */
  lemma CompleteSkipsExactly(g: Shape, s: States, id: string, outcome: TaskState, order: seq<string>, x: string)
    requires Fits(g, s) && id in s && CanMove(s[id], outcome) && outcome.IsBroken()
    requires IsListing(order, g.edges[id]) && x in s
    ensures Finish(g, s, id, outcome, order)[x] == Skipped && s[x] != Skipped <==> SkipReach(g, s[id := outcome], id, x)
  {
    var mid, t := s[id := outcome], Settle(g, s, id, outcome);
    forall c | c in order
      ensures g.Edge(id, c)
    {
      assert c in Elements(order);
    }
    ReachedIsSkippable(g, mid, id, x);
    NotItself(g, mid, id);
    UnlockSkipsNone(g, t, id, order);
    hide SkipReach, Unlock;
  }

  lemma ReachedIsSkippable(g: Shape, s: States, from: string, x: string)
    ensures SkipReach(g, s, from, x) ==> Skippable(g, s, x)
  {
    if SkipReach(g, s, from, x) {
      var path :| SkipPath(g, s, path) && path[0] == from && path[|path| - 1] == x;
      assert Skippable(g, s, path[|path| - 1]);
    }
  }

  lemma NotItself(g: Shape, s: States, from: string)
    ensures from in s && s[from].IsTerminal() ==> !SkipReach(g, s, from, from)
  {
    ReachedIsSkippable(g, s, from, from);
  }
}
