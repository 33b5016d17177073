/** A build in which the order can be seen in which the tasks of a dead worker are found. */
module LossOrderShows {
  import opened Collections
  import opened Tasks
  import opened GraphSpec
  import opened GraphRuns
  import opened Cycles
  import opened UnlockOrder
  import opened LossOrder

  ghost predicate Four(a: string, b: string, x: string, y: string) {
    a != b && a != x && a != y && b != x && b != y && x != y
  }

  /** Two roots; a task after the first; and one to run in any case after that and the second. */
  ghost function Quartet(a: string, b: string, x: string, y: string): Shape {
    Shape(map[a := OnSuccess, b := OnSuccess, x := OnSuccess, y := Always],
          map[a := Need(0, 0, 0), b := Need(0, 0, 0), x := Need(0, 0, 0), y := Need(0, 0, 0)],
          map[a := {x}, b := {y}, x := {y}, y := {}],
          map[a := {}, b := {}, x := {a}, y := {x, b}])
  }

  ghost function At(a: string, b: string, x: string, y: string, sa: TaskState, sb: TaskState, sx: TaskState,
                    sy: TaskState): States
  {
    map[a := sa, b := sb, x := sx, y := sy]
  }

  lemma AtFacts(a: string, b: string, x: string, y: string, sa: TaskState, sb: TaskState, sx: TaskState, sy: TaskState)
    requires Four(a, b, x, y)
    ensures var s := At(a, b, x, y, sa, sb, sx, sy);
      s.Keys == {a, b, x, y} && s[a] == sa && s[b] == sb && s[x] == sx && s[y] == sy
  {
  }

  lemma FirstMoves(a: string, b: string, x: string, y: string, sa: TaskState, sb: TaskState, sx: TaskState,
                   sy: TaskState, t: TaskState)
    requires Four(a, b, x, y)
    ensures At(a, b, x, y, sa, sb, sx, sy)[a := t] == At(a, b, x, y, t, sb, sx, sy)
  {
  }

  lemma SecondMoves(a: string, b: string, x: string, y: string, sa: TaskState, sb: TaskState, sx: TaskState,
                    sy: TaskState, t: TaskState)
    requires Four(a, b, x, y)
    ensures At(a, b, x, y, sa, sb, sx, sy)[b := t] == At(a, b, x, y, sa, t, sx, sy)
  {
  }

  lemma AtIs(a: string, b: string, x: string, y: string, s: States)
    requires Four(a, b, x, y) && s.Keys == {a, b, x, y}
    ensures s == At(a, b, x, y, s[a], s[b], s[x], s[y])
  {
  }

  lemma QuartetEdges(a: string, b: string, x: string, y: string)
    requires Four(a, b, x, y)
    ensures var g := Quartet(a, b, x, y);
      && g.Ids() == {a, b, x, y} && g.policy.Keys == {a, b, x, y} && g.deps.Keys == {a, b, x, y}
      && g.deps[a] == {} && g.deps[b] == {} && g.deps[x] == {a} && g.deps[y] == {x, b}
      && g.edges[a] == {x} && g.edges[b] == {y}
      && g.Default(a) && g.Default(b) && g.Default(x) && !g.Default(y)
    ensures forall p, c ::
              Quartet(a, b, x, y).Edge(p, c) <==> (p == a && c == x) || (p == b && c == y) || (p == x && c == y)
  {
  }

  lemma QuartetValid(a: string, b: string, x: string, y: string)
    requires Four(a, b, x, y)
    ensures Quartet(a, b, x, y).Valid()
  {
    QuartetEdges(a, b, x, y);
  }

  lemma QuartetOrdered(a: string, b: string, x: string, y: string)
    requires Four(a, b, x, y)
    ensures Topological(Quartet(a, b, x, y), [a, b, x, y])
  {
    var g, order := Quartet(a, b, x, y), [a, b, x, y];
    QuartetEdges(a, b, x, y);
    assert Elements(order) == {a, b, x, y};
    forall i, p | 0 <= i < |order| && g.Edge(p, order[i])
      ensures p in order[..i]
    {
      assert order[..2] == [a, b] && order[..3] == [a, b, x];
    }
    hide Quartet, Shape.Edge;
  }

  /** Failing the first root skips the task after it, and no other. */
  lemma FirstFails(a: string, b: string, x: string, y: string, sb: TaskState)
    requires Four(a, b, x, y) && (sb == Running || sb == Failed)
    ensures var g, s := Quartet(a, b, x, y), At(a, b, x, y, Running, sb, Pending, Pending);
      && Fits(g, s) && Finish(g, s, a, Failed, [x]) == At(a, b, x, y, Failed, sb, Skipped, Pending)
  {
    hide Quartet, At, Settle, Unlock, Shape.Valid, Shape.Edge, SkipReach, Opens, Skippable, Four;
    var g, s := Quartet(a, b, x, y), At(a, b, x, y, Running, sb, Pending, Pending);
    QuartetValid(a, b, x, y);
    QuartetEdges(a, b, x, y);
    AtFacts(a, b, x, y, Running, sb, Pending, Pending);
    FirstCascade(a, b, x, y, sb);
    var r := At(a, b, x, y, Failed, sb, Skipped, Pending);
    AtFacts(a, b, x, y, Failed, sb, Skipped, Pending);
    BrokenUnlock(g, r, a, [x]);
    NotOpen(g, r, x);
    AtIs(a, b, x, y, Finish(g, s, a, Failed, [x]));
  }

  lemma NotOpen(g: Shape, s: States, x: string)
    requires Fits(g, s) && x in s && s[x] != Pending
    ensures !Opens(g, s, x)
  {
  }

  lemma FirstCascade(a: string, b: string, x: string, y: string, sb: TaskState)
    requires Four(a, b, x, y) && (sb == Running || sb == Failed)
    ensures var g, s := Quartet(a, b, x, y), At(a, b, x, y, Running, sb, Pending, Pending);
      && Fits(g, s) && Settle(g, s, a, Failed) == At(a, b, x, y, Failed, sb, Skipped, Pending)
  {
    hide Quartet, At, SkipReach, Shape.Valid;
    var g, s := Quartet(a, b, x, y), At(a, b, x, y, Running, sb, Pending, Pending);
    var mid := At(a, b, x, y, Failed, sb, Pending, Pending);
    QuartetValid(a, b, x, y);
    QuartetEdges(a, b, x, y);
    AtFacts(a, b, x, y, Running, sb, Pending, Pending);
    AtFacts(a, b, x, y, Failed, sb, Pending, Pending);
    FirstMoves(a, b, x, y, Running, sb, Pending, Pending, Failed);
    SkipReachChild(g, mid, a, x);
    assert Closed(g, mid, a, {x});
    ClosedIsExact(g, mid, a, {x});
    AtIs(a, b, x, y, Settle(g, s, a, Failed));
  }

  /** Failing the second root releases the last task only if the one between is skipped already. */
  lemma SecondFails(a: string, b: string, x: string, y: string, sa: TaskState, sx: TaskState)
    requires Four(a, b, x, y) && ((sa == Running && sx == Pending) || (sa == Failed && sx == Skipped))
    ensures var g, s := Quartet(a, b, x, y), At(a, b, x, y, sa, Running, sx, Pending);
      && Fits(g, s)
      && Finish(g, s, b, Failed, [y]) == At(a, b, x, y, sa, Failed, sx, if sx == Skipped then Ready else Pending)
  {
    hide Quartet, At, Settle, Unlock, Shape.Valid, SkipReach, Skippable, Opens;
    var g, s := Quartet(a, b, x, y), At(a, b, x, y, sa, Running, sx, Pending);
    QuartetValid(a, b, x, y);
    QuartetEdges(a, b, x, y);
    AtFacts(a, b, x, y, sa, Running, sx, Pending);
    SecondCascade(a, b, x, y, sa, sx);
    var r := At(a, b, x, y, sa, Failed, sx, Pending);
    AtFacts(a, b, x, y, sa, Failed, sx, Pending);
    BrokenUnlock(g, r, b, [y]);
    LastOpens(g, r, b, x, y);
    AtIs(a, b, x, y, Finish(g, s, b, Failed, [y]));
  }

  lemma LastOpens(g: Shape, s: States, b: string, x: string, y: string)
    requires Fits(g, s) && b in s && x in s && y in s && s[b] == Failed && s[y] == Pending && !g.Default(y)
    requires g.deps[y] == {x, b}
    ensures Opens(g, s, y) <==> s[x].IsTerminal()
  {
    assert x in g.deps[y];
  }

  lemma SecondCascade(a: string, b: string, x: string, y: string, sa: TaskState, sx: TaskState)
    requires Four(a, b, x, y) && ((sa == Running && sx == Pending) || (sa == Failed && sx == Skipped))
    ensures var g, s := Quartet(a, b, x, y), At(a, b, x, y, sa, Running, sx, Pending);
      && Fits(g, s) && Settle(g, s, b, Failed) == At(a, b, x, y, sa, Failed, sx, Pending)
  {
    hide Quartet, At, SkipReach, Shape.Valid;
    var g, s := Quartet(a, b, x, y), At(a, b, x, y, sa, Running, sx, Pending);
    var mid := At(a, b, x, y, sa, Failed, sx, Pending);
    QuartetValid(a, b, x, y);
    QuartetEdges(a, b, x, y);
    AtFacts(a, b, x, y, sa, Running, sx, Pending);
    AtFacts(a, b, x, y, sa, Failed, sx, Pending);
    SecondMoves(a, b, x, y, sa, Running, sx, Pending, Failed);
    assert Closed(g, mid, b, {});
    ClosedIsExact(g, mid, b, {});
    AtIs(a, b, x, y, Settle(g, s, b, Failed));
  }

  ghost function BothRunning(a: string, b: string): seq<Event> {
    [] + [MarkReady] + [Assign(a)] + [Start(a)] + [Assign(b)] + [Start(b)]
  }

  lemma BothRun(a: string, b: string, x: string, y: string)
    requires Four(a, b, x, y)
    ensures var g := Quartet(a, b, x, y);
      && g.Valid() && AllLegal(g, BothRunning(a, b))
      && Reached(g, BothRunning(a, b)) == At(a, b, x, y, Running, Running, Pending, Pending)
  {
    hide Step, Initial, Quartet, At, Shape.Valid, Legal;
    var g := Quartet(a, b, x, y);
    QuartetValid(a, b, x, y);
    QuartetScanned(a, b, x, y);
    QuartetMoves(a, b, x, y, Ready);
    QuartetMoves(a, b, x, y, Running);
    NothingReached(g);
    RunLegal(g, a, b);
    OneMore(g, [], MarkReady);
    OneMore(g, [] + [MarkReady], Assign(a));
    OneMore(g, [] + [MarkReady] + [Assign(a)], Start(a));
    OneMore(g, [] + [MarkReady] + [Assign(a)] + [Start(a)], Assign(b));
    OneMore(g, [] + [MarkReady] + [Assign(a)] + [Start(a)] + [Assign(b)], Start(b));
  }

  lemma NothingReached(g: Shape)
    requires g.Valid()
    ensures Reached(g, []) == Initial(g)
  {
  }

  lemma RunLegal(g: Shape, a: string, b: string)
    ensures AllLegal(g, BothRunning(a, b))
  {
  }

  lemma QuartetScanned(a: string, b: string, x: string, y: string)
    requires Four(a, b, x, y)
    ensures var g := Quartet(a, b, x, y);
      && Fits(g, Initial(g)) && Step(g, Initial(g), MarkReady) == At(a, b, x, y, Ready, Ready, Pending, Pending)
  {
    hide Quartet, At, Shape.Valid;
    var g := Quartet(a, b, x, y);
    QuartetValid(a, b, x, y);
    QuartetEdges(a, b, x, y);
    var s := Initial(g);
    assert a in g.deps[x] && b in g.deps[y];
    assert AllDepsPassed(g, s, a) && AllDepsPassed(g, s, b) && !AllDepsPassed(g, s, x) && !AllDepsPassed(g, s, y);
    AtIs(a, b, x, y, Step(g, s, MarkReady));
  }

  /** The moves of one root leave the other as it is. */
  lemma QuartetMoves(a: string, b: string, x: string, y: string, other: TaskState)
    requires Four(a, b, x, y)
    ensures var g := Quartet(a, b, x, y);
      && g.Valid() && (forall sa, sb :: Fits(g, At(a, b, x, y, sa, sb, Pending, Pending)))
      && Step(g, At(a, b, x, y, Ready, other, Pending, Pending), Assign(a)) ==
           At(a, b, x, y, Scheduled, other, Pending, Pending)
      && Step(g, At(a, b, x, y, Scheduled, other, Pending, Pending), Start(a)) ==
           At(a, b, x, y, Running, other, Pending, Pending)
      && Step(g, At(a, b, x, y, other, Ready, Pending, Pending), Assign(b)) ==
           At(a, b, x, y, other, Scheduled, Pending, Pending)
      && Step(g, At(a, b, x, y, other, Scheduled, Pending, Pending), Start(b)) ==
           At(a, b, x, y, other, Running, Pending, Pending)
  {
    hide Quartet, At, Shape.Valid;
    QuartetValid(a, b, x, y);
    QuartetEdges(a, b, x, y);
    forall sa, sb
      ensures Fits(Quartet(a, b, x, y), At(a, b, x, y, sa, sb, Pending, Pending))
    {
      AtFacts(a, b, x, y, sa, sb, Pending, Pending);
    }
    AtFacts(a, b, x, y, Ready, other, Pending, Pending);
    AtFacts(a, b, x, y, Scheduled, other, Pending, Pending);
    AtFacts(a, b, x, y, other, Ready, Pending, Pending);
    AtFacts(a, b, x, y, other, Scheduled, Pending, Pending);
    FirstMoves(a, b, x, y, Ready, other, Pending, Pending, Scheduled);
    FirstMoves(a, b, x, y, Scheduled, other, Pending, Pending, Running);
    SecondMoves(a, b, x, y, other, Ready, Pending, Pending, Scheduled);
    SecondMoves(a, b, x, y, other, Scheduled, Pending, Pending, Running);
  }

  lemma LossLegal(g: Shape, run: seq<Event>, t: string, child: string)
    requires AllLegal(g, run) && t in g.edges && g.edges[t] == {child}
    ensures AllLegal(g, run + [Complete(t, Failed, [child])])
  {
    assert Elements([child]) == {child};
  }

  lemma FirstThenSecond(a: string, b: string, x: string, y: string)
    requires Four(a, b, x, y)
    ensures var g := Quartet(a, b, x, y);
      var run := BothRunning(a, b) + [Complete(a, Failed, [x])] + [Complete(b, Failed, [y])];
      g.Valid() && AllLegal(g, run) && Reached(g, run) == At(a, b, x, y, Failed, Failed, Skipped, Ready)
  {
    hide Reached, AllLegal, BothRunning, Shape.Valid, Quartet, Finish, At;
    var g := Quartet(a, b, x, y);
    var first, second := Complete(a, Failed, [x]), Complete(b, Failed, [y]);
    var run := BothRunning(a, b);
    QuartetEdges(a, b, x, y);
    BothRun(a, b, x, y);
    LossLegal(g, run, a, x);
    LossLegal(g, run + [first], b, y);
    FirstFails(a, b, x, y, Running);
    SecondFails(a, b, x, y, Failed, Skipped);
    OneMore(g, run, first);
    OneMore(g, run + [first], second);
  }

  lemma SecondThenFirst(a: string, b: string, x: string, y: string)
    requires Four(a, b, x, y)
    ensures var g := Quartet(a, b, x, y);
      var run := BothRunning(a, b) + [Complete(b, Failed, [y])] + [Complete(a, Failed, [x])];
      g.Valid() && AllLegal(g, run) && Reached(g, run) == At(a, b, x, y, Failed, Failed, Skipped, Pending)
  {
    hide Reached, AllLegal, BothRunning, Shape.Valid, Quartet, Finish, At;
    var g := Quartet(a, b, x, y);
    var first, second := Complete(a, Failed, [x]), Complete(b, Failed, [y]);
    var run := BothRunning(a, b);
    QuartetEdges(a, b, x, y);
    BothRun(a, b, x, y);
    LossLegal(g, run, b, y);
    LossLegal(g, run + [second], a, x);
    SecondFails(a, b, x, y, Running, Pending);
    FirstFails(a, b, x, y, Failed);
    OneMore(g, run, second);
    OneMore(g, run + [second], first);
  }

  lemma AtRest(a: string, b: string, x: string, y: string)
    requires Four(a, b, x, y)
    ensures var s := At(a, b, x, y, Failed, Failed, Skipped, Pending); y in s && s[y] == Pending && Quiet(s)
  {
  }

  /** Both roots run on a worker that dies. If the first is found first, the last task is released;
      if the second is, the build comes to rest with the last task still Pending. */
  lemma LossOrderMatters(a: string, b: string, x: string, y: string)
    requires Four(a, b, x, y)
    ensures var g := Quartet(a, b, x, y);
      var first, second := Complete(a, Failed, [x]), Complete(b, Failed, [y]);
      && g.Valid() && !Cyclic(g)
      && AllLegal(g, BothRunning(a, b) + [first] + [second]) && AllLegal(g, BothRunning(a, b) + [second] + [first])
      && Reached(g, BothRunning(a, b) + [first] + [second])[y] == Ready
      && var rest := Reached(g, BothRunning(a, b) + [second] + [first]);
         rest[y] == Pending && Quiet(rest)
  {
    hide *;
    AtFacts(a, b, x, y, Failed, Failed, Skipped, Ready);
    QuartetOrdered(a, b, x, y);
    BothRun(a, b, x, y);
    TopologicalMeansAcyclic(Quartet(a, b, x, y), [a, b, x, y]);
    FirstThenSecond(a, b, x, y);
    SecondThenFirst(a, b, x, y);
    AtRest(a, b, x, y);
  }
}
