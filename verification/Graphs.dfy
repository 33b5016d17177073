/** The task graph (pkg/dag/graph.go): its operations on the heap, proved against GraphSpec. */
module Graphs {
  import opened Collections
  import opened Tasks
  import opened GraphSpec
  import opened Cycles
  import ChildVerdicts

  datatype GraphError =
    | EmptyId
    | DuplicateId
    | ParentNotFound
    | ChildNotFound
    | SelfDependency
    | CycleDetected(names: seq<string>)
    | TaskNotFound
    | InvalidTransition

  /** What Complete was asked, and the order in which it came to the children. */
  datatype Completion = Completion(task: string, outcome: TaskState, visited: seq<string>)

  /** The cascade below one task, with some of its children still to be visited. */
  ghost predicate PartialCascade(g: Shape, s: States, now: States, from: string, todo: set<string>) {
    && s.Keys == now.Keys
    && (forall x :: x in s && now[x] != s[x] ==>
          now[x] == Skipped && Skippable(g, s, x) && SkipReach(g, s, from, x))
    && (forall c :: g.Edge(from, c) && c !in todo ==> !Skippable(g, now, c))
    && (forall x, c :: x in s && now[x] != s[x] && g.Edge(x, c) ==> !Skippable(g, now, c))
  }

  lemma CascadeClosed(g: Shape, s: States, from: string, x: string, c: string)
    requires x == from || SkipReach(g, s, from, x)
    requires g.Edge(x, c)
    ensures !Skippable(g, Cascade(g, s, from), c)
  {
    if Skippable(g, s, c) {
      if x == from {
        SkipReachChild(g, s, from, c);
      } else {
        SkipReachAppend(g, s, from, x, c);
      }
    }
  }

  /** Skipping a child and cascading below it takes that child off the list. */
  lemma VisitChild(g: Shape, s: States, now: States, from: string, todo: set<string>, c: string)
    requires PartialCascade(g, s, now, from, todo)
    requires g.Edge(from, c) && Skippable(g, now, c)
    ensures PartialCascade(g, s, Cascade(g, now[c := Skipped], c), from, todo - {c})
  {
    var mid := now[c := Skipped];
    var after := Cascade(g, mid, c);
    SkipReachChild(g, s, from, c);
    forall x | SkipReach(g, mid, c, x)
      ensures Skippable(g, s, x) && SkipReach(g, s, from, x)
    {
      ReachedIsSkippable(g, mid, c, x);
      SkipReachAntitone(g, s, mid, c, x);
      SkipReachPrepend(g, s, from, c, x);
    }
    forall x, d | x in s && after[x] != s[x] && g.Edge(x, d)
      ensures !Skippable(g, after, d)
    {
      if x == c || SkipReach(g, mid, c, x) {
        CascadeClosed(g, mid, c, x, d);
      }
    }
  }

  lemma NothingChanged(s: States)
    ensures IsListing([], Changed(s, s))
  {
  }

  lemma CascadeStart(g: Shape, s: States, from: string)
    requires from in g.edges
    ensures PartialCascade(g, s, s, from, g.edges[from])
  {
  }

  /** The child and what is skipped below it have not been written before. */
  lemma WrittenOnce(g: Shape, s: States, now: States, from: string, todo: set<string>, c: string,
                    written: seq<string>, below: seq<string>)
    requires PartialCascade(g, s, now, from, todo) && Skippable(g, now, c) && IsListing(written, Changed(s, now))
    requires IsListing(below, Changed(now[c := Skipped], Cascade(g, now[c := Skipped], c)))
    ensures IsListing(written + [c] + below, Changed(s, Cascade(g, now[c := Skipped], c)))
  {
    var mid := now[c := Skipped];
    var after := Cascade(g, mid, c);
    forall x | x in Changed(mid, after)
      ensures mid[x] == s[x] && x != c && x !in Changed(s, now)
    {
      ReachedIsSkippable(g, mid, c, x);
    }
    assert c !in Changed(s, now);
    assert Changed(s, now) + {c} + Changed(mid, after) == Changed(s, after);
    hide IsListing, Cascade;
    ListingExtends(written, Changed(s, now), c);
    ListingConcat(written + [c], Changed(s, now) + {c}, below, Changed(mid, after));
  }

  lemma PassChild(g: Shape, s: States, now: States, from: string, todo: set<string>, c: string)
    requires PartialCascade(g, s, now, from, todo) && !Skippable(g, now, c)
    ensures PartialCascade(g, s, now, from, todo - {c})
  {
  }

  function Unfinished(s: States): set<string> {
    set x | x in s && !s[x].IsTerminal()
  }

  /** The measure by which the recursion ends, on cyclic graphs too. */
  lemma UnfinishedShrinks(g: Shape, s: States, now: States, from: string, todo: set<string>, c: string)
    requires PartialCascade(g, s, now, from, todo) && Skippable(g, now, c)
    ensures Unfinished(now[c := Skipped]) < Unfinished(s)
  {
    assert c in Unfinished(s) && c !in Unfinished(now[c := Skipped]);
  }

  lemma NoChildLeft(g: Shape, s: States, now: States, from: string)
    requires PartialCascade(g, s, now, from, {})
    ensures now == Cascade(g, s, from)
  {
    var skipped := set x | x in s && now[x] != s[x];
    ClosedIsExact(g, s, from, skipped);
    forall x | x in s
      ensures now[x] == Cascade(g, s, from)[x]
    {
      assert x in skipped <==> SkipReach(g, s, from, x);
    }
  }

  /** The three maps of a graph agree with one another and with its shape. */
  ghost predicate Describes(g: Shape, tasks: map<string, Task>,
                            edges: map<string, set<string>>, deps: map<string, set<string>>)
  {
    && g.Valid() && g.edges == edges && g.deps == deps && tasks.Keys == edges.Keys
    && forall x :: x in tasks ==>
         tasks[x].id == x && g.policy[x] == PolicyOf(tasks[x].condition) && g.need[x] == tasks[x].need
  }

  lemma DescribesTask(g: Shape, tasks: map<string, Task>,
                      edges: map<string, set<string>>, deps: map<string, set<string>>, t: Task)
    requires Describes(g, tasks, edges, deps) && t.id !in tasks
    ensures Describes(g.WithTask(t.id, PolicyOf(t.condition), t.need), tasks[t.id := t],
                      edges[t.id := {}], deps[t.id := {}])
    ensures t !in tasks.Values
  {
    hide Shape.Valid, PolicyOf;
    WithTaskValid(g, t.id, PolicyOf(t.condition), t.need);
  }

  lemma DescribesEdge(g: Shape, tasks: map<string, Task>,
                      edges: map<string, set<string>>, deps: map<string, set<string>>, p: string, c: string)
    requires Describes(g, tasks, edges, deps) && p in edges && c in deps && p != c
    ensures Describes(g.WithEdge(p, c), tasks, edges[p := edges[p] + {c}], deps[c := deps[c] + {p}])
  {
    WithEdgeValid(g, p, c);
  }

  /** The scan of MarkReady, with some tasks still to be looked at. */
  ghost predicate PartlyMarked(g: Shape, s: States, now: States, todo: set<string>) {
    && Fits(g, s) && Fits(g, now)
    && forall x :: x in s ==> now[x] == if x in todo then s[x] else MarkReadyAll(g, s)[x]
  }

  /** Promoting one task does not change what the scan decides about another. */
  lemma MarkOne(g: Shape, s: States, now: States, todo: set<string>, x: string)
    requires PartlyMarked(g, s, now, todo) && x in todo && x in s
    ensures PartlyMarked(g, s,
      if now[x] == Pending && AllDepsPassed(g, now, x) then now[x := Ready] else now, todo - {x})
  {
    MarkedAgree(g, s, now, todo, x);
  }

  lemma MarkedAgree(g: Shape, s: States, now: States, todo: set<string>, x: string)
    requires PartlyMarked(g, s, now, todo) && x in s
    ensures AllDepsPassed(g, now, x) <==> AllDepsPassed(g, s, x)
  {
    forall p | p in g.deps[x]
      ensures now[p] == Passed <==> s[p] == Passed
    {
      assert g.Edge(p, x);
    }
  }

  lemma AllMarked(g: Shape, s: States, now: States)
    requires PartlyMarked(g, s, now, {})
    ensures now == MarkReadyAll(g, s)
  {
  }

  /** The state that Complete gives to a Pending child whose parents are all finished. */
  ghost function Verdict(g: Shape, s: States, c: string): TaskState
    requires Fits(g, s) && c in s
  {
    match g.policy[c]
    case OnFailure => if AnyDepFailed(g, s, c) then Ready else Skipped
    case Always => Ready
    case OnSuccess => if AllDepsPassed(g, s, c) then Ready else Pending
  }

  lemma UnlockChildVerdict(g: Shape, s: States, c: string)
    requires Fits(g, s) && c in s
    ensures UnlockChild(g, s, c) ==
              if s[c] == Pending && AllDepsTerminal(g, s, c) then s[c := Verdict(g, s, c)] else s
  {
    if s[c] == Pending {
      assert s[c := Pending] == s;
    }
  }

  ghost predicate NamesOf(tasks: map<string, Task>, names: seq<string>, ids: seq<string>) {
    |names| == |ids| && forall i :: 0 <= i < |ids| ==> ids[i] in tasks && names[i] == tasks[ids[i]].name
  }

  /** The tasks that the ids stand for. */
  ghost predicate Names(tasks: map<string, Task>, list: seq<Task>, ids: seq<string>) {
    |list| == |ids| && forall i :: 0 <= i < |ids| ==> ids[i] in tasks && list[i] == tasks[ids[i]]
  }

  /** The ids are exactly those of the visited children that went from Pending to Ready. */
  ghost predicate AreUnlocked(g: Shape, s: States, visited: seq<string>, ids: seq<string>)
    requires Fits(g, s)
  {
    && Distinct(ids)
    && forall x :: x in ids <==> x in visited && x in s && s[x] == Pending && Unlock(g, s, visited)[x] == Ready
  }

  lemma NothingUnlocked(g: Shape, s: States, tasks: map<string, Task>, all: set<string>)
    requires Fits(g, s)
    ensures AreUnlocked(g, s, [], []) && Names(tasks, [], []) && Unlock(g, s, []) == s
    ensures IsListing([], all - all)
  {
  }

  lemma NamesExtend(tasks: map<string, Task>, list: seq<Task>, ids: seq<string>, c: string)
    requires Names(tasks, list, ids) && c in tasks
    ensures Names(tasks, list + [tasks[c]], ids + [c])
  {
  }

  lemma {:induction false} UnlockElsewhere(g: Shape, s: States, visited: seq<string>, x: string)
    requires Fits(g, s) && x in s && x !in visited
    ensures Unlock(g, s, visited)[x] == s[x]
  {
    if visited != [] {
      UnlockElsewhere(g, s, visited[..|visited| - 1], x);
    }
  }

  lemma UnlockedStep(g: Shape, s: States, visited: seq<string>, ids: seq<string>, c: string, all: set<string>,
                     todo: set<string>)
    requires Fits(g, s) && AreUnlocked(g, s, visited, ids) && c in s
    requires todo <= all && c in todo && IsListing(visited, all - todo)
    ensures IsListing(visited + [c], all - (todo - {c}))
    ensures var now := Unlock(g, s, visited);
      && Unlock(g, s, visited + [c]) == UnlockChild(g, now, c)
      && AreUnlocked(g, s, visited + [c],
           if now[c] == Pending && UnlockChild(g, now, c)[c] == Ready then ids + [c] else ids)
  {
    ListingExtends(visited, all - todo, c);
    assert all - todo + {c} == all - (todo - {c});
    assert c !in Elements(visited);
    assert (visited + [c])[..|visited|] == visited;
    UnlockElsewhere(g, s, visited, c);
  }

  /** Complete, by cases. */
  lemma FinishIs(g: Shape, s: States, id: string, outcome: TaskState)
    requires Fits(g, s)
    ensures !(id in s && CanMove(s[id], outcome)) ==> forall order :: Finish(g, s, id, outcome, order) == s
    ensures id in s && CanMove(s[id], outcome) ==>
      forall order :: Finish(g, s, id, outcome, order) == Unlock(g, Settle(g, s, id, outcome), order)
  {
  }

  lemma AllSkippedExactly(g: Shape, s: States, id: string, outcome: TaskState, order: seq<string>)
    requires Fits(g, s) && id in s && CanMove(s[id], outcome) && IsListing(order, g.edges[id])
    ensures outcome.IsBroken() ==> forall x :: x in s ==>
              (Finish(g, s, id, outcome, order)[x] == Skipped && s[x] != Skipped <==>
               SkipReach(g, s[id := outcome], id, x))
  {
    forall x | x in s && outcome.IsBroken()
      ensures Finish(g, s, id, outcome, order)[x] == Skipped && s[x] != Skipped <==>
                SkipReach(g, s[id := outcome], id, x)
    {
      CompleteSkipsExactly(g, s, id, outcome, order, x);
    }
  }

  class Graph {
    var tasks: map<string, Task>
    var edges: map<string, set<string>>
    var deps: map<string, set<string>>
    var order: seq<string>
    ghost var shape: Shape

    ghost predicate Valid()
      reads this
    {
      Describes(shape, tasks, edges, deps)
    }

    /** The order that Validate leaves behind, if it has run. */
    ghost predicate Ordered()
      reads this
    {
      order != [] ==> Topological(shape, order)
    }

    ghost function States(): States
      reads this, tasks.Values
    {
      map x | x in tasks :: tasks[x].state
    }

    constructor ()
      ensures Valid() && Ordered() && tasks == map[] && edges == map[]
    {
      tasks, edges, deps, order := map[], map[], map[], [];
      shape := Shape(map[], map[], map[], map[]);
    }

    // ----- building -----

    method AddTask(t: Task) returns (err: Option<GraphError>)
      requires Valid()
      modifies this`tasks, this`edges, this`deps, this`shape, t`state
      ensures Valid()
      ensures err == if t.id == "" then Some(EmptyId)
                     else if t.id in old(tasks) then Some(DuplicateId) else None
      ensures err.Some? ==> unchanged(this) && unchanged(t)
      ensures err.None? ==>
        && tasks == old(tasks)[t.id := t] && order == old(order)
        && shape == old(shape).WithTask(t.id, PolicyOf(t.condition), t.need)
        && States() == old(States())[t.id := Pending]
      ensures err.None? ==>
        t.state == Pending && edges == old(edges)[t.id := {}] && deps == old(deps)[t.id := {}]
    {
      if t.id == "" {
        return Some(EmptyId);
      }
      if t.id in tasks {
        return Some(DuplicateId);
      }
      assert t !in tasks.Values;
      hide *;
      t.state := Pending;
      Insert(t);
      StatesWith(t);
      return None;
    }

    /** The states once a task has been filed under its own id. */
    twostate lemma StatesWith(t: Task)
      requires old(Valid()) && t.id !in old(tasks)
      requires tasks == old(tasks)[t.id := t]
      requires forall x :: x in old(tasks) ==> tasks[x].state == old(tasks[x].state)
      ensures States() == old(States())[t.id := t.state]
    {
    }

    /** Files a task under its id, with no dependencies yet. */
    method Insert(t: Task)
      requires Valid() && t.id !in tasks
      modifies this`tasks, this`edges, this`deps, this`shape
      ensures Valid()
      ensures tasks == old(tasks)[t.id := t] && edges == old(edges)[t.id := {}] && deps == old(deps)[t.id := {}]
      ensures shape == old(shape).WithTask(t.id, PolicyOf(t.condition), t.need)
    {
      DescribesTask(shape, tasks, edges, deps, t);
      hide *;
      shape := shape.WithTask(t.id, PolicyOf(t.condition), t.need);
      tasks := tasks[t.id := t];
      edges := edges[t.id := {}];
      deps := deps[t.id := {}];
    }

    /** A raw write of one task's state. */
    method SetState(x: string, s: TaskState)
      requires Valid() && x in tasks
      modifies {tasks[x]}`state
      ensures tasks[x].state == s
      ensures States() == old(States())[x := s]
    {
      hide Describes, States;
      OtherTasks(x);
      tasks[x].state := s;
      StatesWritten(x);
    }

    lemma OtherTasks(x: string)
      requires Valid() && x in tasks
      ensures forall y :: y in tasks && y != x ==> tasks[y] != tasks[x]
    {
    }

    method AddEdge(parent: string, child: string) returns (err: Option<GraphError>)
      requires Valid()
      modifies this`edges, this`deps, this`shape
      ensures Valid()
      ensures err == if parent !in tasks then Some(ParentNotFound)
                     else if child !in tasks then Some(ChildNotFound)
                     else if parent == child then Some(SelfDependency) else None
      ensures err.Some? ==> unchanged(this)
      ensures err.None? ==>
        && tasks == old(tasks) && order == old(order)
        && shape == old(shape).WithEdge(parent, child)
        && States() == old(States())
      ensures err.None? ==>
        && parent in old(edges) && edges == old(edges)[parent := old(edges)[parent] + {child}]
        && child in old(deps) && deps == old(deps)[child := old(deps)[child] + {parent}]
    {
      hide Describes, States, Shape.WithEdge;
      FitsNow();
      if parent !in tasks {
        return Some(ParentNotFound);
      }
      if child !in tasks {
        return Some(ChildNotFound);
      }
      if parent == child {
        return Some(SelfDependency);
      }
      DescribesEdge(shape, tasks, edges, deps, parent, child);
      shape := shape.WithEdge(parent, child);
      edges := edges[parent := edges[parent] + {child}];
      deps := deps[child := deps[child] + {parent}];
      StatesKept();
      return None;
    }

    /** The states when no task has changed. */
    twostate lemma StatesKept()
      requires tasks == old(tasks) && forall x :: x in tasks ==> tasks[x].state == old(tasks[x].state)
      ensures States() == old(States())
    {
    }

    // ----- Validate -----

    method InDegrees() returns (inDegree: map<string, int>)
      requires Valid()
      ensures inDegree.Keys == shape.Ids() == shape.deps.Keys
      ensures forall x :: x in inDegree ==> inDegree[x] == |shape.deps[x]|
    {
      inDegree := map[];
      var todo := tasks.Keys;
      while todo != {}
        invariant todo <= tasks.Keys && inDegree.Keys == tasks.Keys - todo
        invariant forall x :: x in inDegree ==> x in deps && inDegree[x] == |deps[x]|
      {
        var x :| x in todo;
        inDegree := inDegree[x := |deps[x]|];
        todo := todo - {x};
      }
    }

    method Sources(inDegree: map<string, int>) returns (queue: seq<string>)
      ensures ZeroesQueued(inDegree, queue)
    {
      queue := [];
      var todo := inDegree.Keys;
      while todo != {}
        invariant todo <= inDegree.Keys && Distinct(queue)
        invariant forall x :: x in queue <==> x in inDegree.Keys - todo && inDegree[x] == 0
      {
        var x :| x in todo;
        if inDegree[x] == 0 {
          queue := queue + [x];
        }
        todo := todo - {x};
      }
    }

    /** The names of the tasks with parents still unmet. */
    method CycleNodes(inDegree: map<string, int>) returns (names: seq<string>, ghost ids: seq<string>)
      requires inDegree.Keys == tasks.Keys
      ensures IsListing(ids, Unmet(inDegree))
      ensures NamesOf(tasks, names, ids)
    {
      names, ids := [], [];
      var todo := inDegree.Keys;
      while todo != {}
        invariant todo <= inDegree.Keys && Distinct(ids)
        invariant forall x :: x in ids <==> x in inDegree.Keys - todo && inDegree[x] > 0
        invariant NamesOf(tasks, names, ids)
      {
        var x :| x in todo;
        if inDegree[x] > 0 {
          names, ids := names + [tasks[x].name], ids + [x];
        }
        todo := todo - {x};
      }
    }

    method RelaxChildren(node: string, degrees: map<string, int>, waiting: seq<string>, ghost sorted: seq<string>)
      returns (inDegree: map<string, int>, queue: seq<string>)
      requires node in edges && edges[node] <= degrees.Keys
      requires Kahn(shape, degrees, waiting, sorted, edges[node])
      ensures inDegree.Keys == degrees.Keys && Kahn(shape, inDegree, queue, sorted, {})
    {
      inDegree, queue := degrees, waiting;
      var todo := edges[node];
      hide *;
      while todo != {}
        invariant todo <= inDegree.Keys == degrees.Keys
        invariant Kahn(shape, inDegree, queue, sorted, todo)
      {
        var c :| c in todo;
        KahnRelax(shape, inDegree, queue, sorted, todo, c);
        inDegree := inDegree[c := inDegree[c] - 1];
        if inDegree[c] == 0 {
          queue := queue + [c];
        }
        todo := todo - {c};
      }
    }

    method Sort() returns (inDegree: map<string, int>, sorted: seq<string>)
      requires Valid()
      ensures inDegree.Keys == tasks.Keys && Kahn(shape, inDegree, [], sorted, {})
    {
      inDegree := InDegrees();
      assert tasks.Keys == shape.Ids() && shape.edges == edges;
      assert |tasks.Keys| == |tasks|;
      var queue := Sources(inDegree);
      KahnStart(shape, inDegree, queue);
      sorted := [];
      hide *;
      while queue != []
        invariant Kahn(shape, inDegree, queue, sorted, {}) && inDegree.Keys == tasks.Keys
        decreases |tasks| - |sorted|
      {
        KahnBound(shape, inDegree, queue, sorted, {});
        var node := queue[0];
        KahnPop(shape, inDegree, queue, sorted);
        queue := queue[1..];
        sorted := sorted + [node];
        inDegree, queue := RelaxChildren(node, inDegree, queue, sorted);
      }
    }

    /** Kahn's algorithm: succeeds iff the graph has no cycle, and then leaves a topological
        order; otherwise it names exactly the tasks on or downstream of a cycle. */
    method Validate() returns (err: Option<GraphError>, ghost stuck: seq<string>)
      requires Valid()
      modifies this`order
      ensures err.None? <==> !Cyclic(shape)
      ensures err.None? ==> Topological(shape, order)
      ensures err.Some? ==>
        && order == old(order) && IsListing(stuck, Looped(shape))
        && err.value.CycleDetected? && NamesOf(tasks, err.value.names, stuck)
    {
      var inDegree, sorted := Sort();
      KahnEnd(shape, inDegree, sorted);
      assert |tasks.Keys| == |tasks| && tasks.Keys == shape.Ids();
      hide *;
      if |sorted| != |tasks| {
        var names: seq<string>;
        names, stuck := CycleNodes(inDegree);
        return Some(CycleDetected(names)), stuck;
      }
      order := sorted;
      return None, [];
    }

    // ----- the skip cascade -----

    /** A child that is unfinished and has neither condition. */
    ghost predicate SkipsTo(p: string, c: string)
      reads this, tasks.Values
    {
      && p in edges && c in edges[p] && c in tasks && !tasks[c].state.IsTerminal()
      && tasks[c].condition != "always" && tasks[c].condition != "on_failure"
    }

    /** A path by such children, which does not come back to where it starts. */
    ghost predicate SkipsAlong(path: seq<string>, from: string, to: string)
      reads this, tasks.Values
    {
      && |path| >= 2 && path[0] == from && path[|path| - 1] == to
      && forall i :: 0 < i < |path| ==> SkipsTo(path[i - 1], path[i]) && path[i] != from
    }

    lemma SkipsToIff(p: string, c: string, from: string, outcome: TaskState)
      requires Valid() && from in tasks && outcome.IsTerminal()
      ensures SkipsTo(p, c) && c != from <==> shape.Edge(p, c) && Skippable(shape, States()[from := outcome], c)
    {
    }

    /** These are the paths of the cascade, once the task is finished. */
    lemma SkipsAlongIff(path: seq<string>, from: string, to: string, outcome: TaskState)
      requires Valid() && from in tasks && outcome.IsTerminal()
      ensures SkipsAlong(path, from, to) <==>
                |path| >= 2 && path[0] == from && path[|path| - 1] == to
                && SkipPath(shape, States()[from := outcome], path)
    {
      hide SkipsTo, Skippable, Shape.Edge, Describes, States;
      var s := States()[from := outcome];
      if SkipsAlong(path, from, to) {
        forall i | 0 < i < |path|
          ensures shape.Edge(path[i - 1], path[i]) && Skippable(shape, s, path[i])
        {
          SkipsToIff(path[i - 1], path[i], from, outcome);
        }
      }
      if |path| >= 2 && path[0] == from && path[|path| - 1] == to && SkipPath(shape, s, path) {
        forall i | 0 < i < |path|
          ensures SkipsTo(path[i - 1], path[i]) && path[i] != from
        {
          SkipsToIff(path[i - 1], path[i], from, outcome);
        }
      }
    }

    /** The cascade of the task comes to this one. */
    ghost predicate CascadeReaches(from: string, to: string)
      reads this, tasks.Values
    {
      exists path :: SkipsAlong(path, from, to)
    }

    lemma SkipReachSeen(from: string, to: string, outcome: TaskState)
      requires Valid() && from in tasks && outcome.IsTerminal()
      ensures SkipReach(shape, States()[from := outcome], from, to) <==> CascadeReaches(from, to)
    {
      hide SkipsTo, SkipsAlong, Skippable, Shape.Edge, Describes, States;
      var s := States()[from := outcome];
      if SkipReach(shape, s, from, to) {
        var path :| SkipPath(shape, s, path) && path[0] == from && path[|path| - 1] == to;
        SkipsAlongIff(path, from, to, outcome);
      }
      if path :| SkipsAlong(path, from, to) {
        SkipsAlongIff(path, from, to, outcome);
      }
    }

    lemma AllSkipReachSeen(from: string, outcome: TaskState)
      requires Valid() && from in tasks && outcome.IsTerminal()
      ensures forall x :: CascadeReaches(from, x) <==> SkipReach(shape, States()[from := outcome], from, x)
    {
      hide SkipReach, CascadeReaches, Describes, States;
      forall x
        ensures CascadeReaches(from, x) <==> SkipReach(shape, States()[from := outcome], from, x)
      {
        SkipReachSeen(from, x, outcome);
      }
    }

    lemma AboutTask(c: string)
      requires Valid() && c in tasks
      ensures c in shape.policy && shape.policy[c] == PolicyOf(tasks[c].condition)
    {
    }

    lemma AboutChild(p: string, c: string)
      requires Valid() && p in tasks && c in edges[p]
      ensures shape.Edge(p, c) && c in tasks && c in deps && c in States()
      ensures shape.policy[c] == PolicyOf(tasks[c].condition)
      ensures Skippable(shape, States(), c) <==>
                !tasks[c].state.IsTerminal() && !PolicyOf(tasks[c].condition).RunsAfterFailure()
    {
      assert shape.Edge(p, c);
    }

    /** Whatever the order in which children are visited, exactly the reachable tasks are skipped,
        and each is written once. */
    method SkipDownstream(from: string) returns (ghost written: seq<string>)
      requires Valid() && from in tasks
      modifies tasks.Values`state
      ensures States() == Cascade(shape, old(States()), from)
      ensures IsListing(written, Changed(old(States()), States()))
      decreases Unfinished(States())
    {
      hide Describes, PartialCascade, Skippable, SkipReach, IsListing, Changed;
      ghost var g, s := shape, States();
      ghost var now := s;
      written := [];
      NothingChanged(s);
      FitsNow();
      CascadeStart(g, s, from);
      var todo := edges[from];
      while todo != {}
        invariant todo <= edges[from]
        invariant now == States() && PartialCascade(g, s, now, from, todo)
        invariant IsListing(written, Changed(s, now))
      {
        var c :| c in todo;
        AboutChild(from, c);
        var child := tasks[c];
        if !child.state.IsTerminal() && !child.ShouldRunAfterFailure() {
          UnfinishedShrinks(g, s, now, from, todo, c);
          SetState(c, Skipped);
          ghost var below := SkipDownstream(c);
          WrittenOnce(g, s, now, from, todo, c, written, below);
          written := written + [c] + below;
          VisitChild(g, s, now, from, todo, c);
          now := States();
        } else {
          PassChild(g, s, now, from, todo, c);
        }
        todo := todo - {c};
      }
      NoChildLeft(g, s, now, from);
    }

    // ----- what a task's parents say -----

    lemma FitsNow()
      requires Valid()
      ensures Fits(shape, States()) && shape.edges == edges && shape.deps == deps
      ensures tasks.Keys == shape.edges.Keys == shape.deps.Keys
    {
    }

    lemma StateOf(x: string)
      ensures x in tasks <==> x in States()
      ensures x in tasks ==> States()[x] == tasks[x].state
    {
    }

    lemma AboutParent(x: string, p: string)
      requires Valid() && x in tasks && p in deps[x]
      ensures shape.Edge(p, x) && p in tasks
    {
    }

    method AllDepsComplete(x: string) returns (r: bool)
      requires Valid() && x in tasks
      ensures Fits(shape, States()) && r == AllDepsPassed(shape, States(), x)
      ensures r <==> forall p :: p in deps[x] ==> p in tasks && tasks[p].state == Passed
    {
      FitsNow();
      var todo := deps[x];
      while todo != {}
        invariant todo <= deps[x]
        invariant forall p :: p in deps[x] - todo ==> p in tasks && tasks[p].state.IsSuccess()
      {
        var p :| p in todo;
        AboutParent(x, p);
        if !tasks[p].state.IsSuccess() {
          assert States()[p] != Passed && tasks[p].state != Passed;
          return false;
        }
        todo := todo - {p};
      }
      return true;
    }

    method AllDepsAreTerminal(x: string) returns (r: bool)
      requires Valid() && x in tasks
      ensures Fits(shape, States()) && r == AllDepsTerminal(shape, States(), x)
      ensures r <==> forall p :: p in deps[x] ==> p in tasks && tasks[p].state.IsTerminal()
    {
      FitsNow();
      var todo := deps[x];
      while todo != {}
        invariant todo <= deps[x]
        invariant forall p :: p in deps[x] - todo ==> p in tasks && tasks[p].state.IsTerminal()
      {
        var p :| p in todo;
        AboutParent(x, p);
        if !tasks[p].state.IsTerminal() {
          assert !States()[p].IsTerminal() && !tasks[p].state.IsTerminal();
          return false;
        }
        todo := todo - {p};
      }
      return true;
    }

    method AnyDepHasFailed(x: string) returns (r: bool)
      requires Valid() && x in tasks
      ensures Fits(shape, States()) && r == AnyDepFailed(shape, States(), x)
      ensures r <==> exists p :: p in deps[x] && p in tasks && (tasks[p].state == Failed || tasks[p].state == TimedOut)
    {
      FitsNow();
      var todo := deps[x];
      while todo != {}
        invariant todo <= deps[x]
        invariant forall p :: p in deps[x] - todo ==> p in tasks && !tasks[p].state.IsBroken()
      {
        var p :| p in todo;
        AboutParent(x, p);
        if tasks[p].state == Failed || tasks[p].state == TimedOut {
          assert States()[p].IsBroken() && p in deps[x] && p in tasks;
          return true;
        }
        todo := todo - {p};
      }
      return false;
    }

    // ----- MarkReady and Cancel -----

    method Promote(x: string)
      requires Valid() && x in tasks
      modifies tasks.Values`state
      ensures Fits(shape, old(States()))
      ensures States() == var s := old(States());
                if s[x] == Pending && AllDepsPassed(shape, s, x) then s[x := Ready] else s
    {
      hide Describes, AllDepsPassed, Shape.Valid;
      FitsNow();
      if tasks[x].state == Pending {
        var complete := AllDepsComplete(x);
        if complete {
          SetState(x, Ready);
        }
      }
    }

    method PromoteAll()
      requires Valid()
      modifies tasks.Values`state
      ensures Fits(shape, old(States())) && States() == MarkReadyAll(shape, old(States()))
    {
      FitsNow();
      ghost var g, s := shape, States();
      ghost var now := s;
      var todo := tasks.Keys;
      assert s.Keys == tasks.Keys && PartlyMarked(g, s, now, todo);
      hide *;
      while todo != {}
        invariant todo <= tasks.Keys
        invariant now == States() && PartlyMarked(g, s, now, todo)
      {
        var x :| x in todo;
        Promote(x);
        MarkOne(g, s, now, todo, x);
        now := States();
        todo := todo - {x};
      }
      AllMarked(g, s, now);
    }

    method MarkReady() returns (ready: seq<Task>)
      requires Valid()
      modifies tasks.Values`state
      ensures Fits(shape, old(States())) && States() == MarkReadyAll(shape, old(States()))
      ensures forall x :: x in tasks ==>
                tasks[x].state ==
                  if old(tasks[x].state) == Pending
                     && forall p :: p in deps[x] ==> p in tasks && old(tasks[p].state) == Passed
                  then Ready else old(tasks[x].state)
      ensures Distinct(ready)
      ensures forall t :: t in ready <==> t in tasks.Values && t.state == Ready
    {
      hide *;
      PromoteAll();
      MarkedAll();
      ready := TasksIn(Ready);
    }

    twostate lemma MarkedAll()
      requires old(Valid()) && unchanged(this) && Fits(shape, old(States()))
      requires States() == MarkReadyAll(shape, old(States()))
      ensures forall x :: x in tasks ==>
                tasks[x].state ==
                  if old(tasks[x].state) == Pending
                     && forall p :: p in deps[x] ==> p in tasks && old(tasks[p].state) == Passed
                  then Ready else old(tasks[x].state)
    {
      forall x | x in tasks
        ensures tasks[x].state == MarkReadyAll(shape, old(States()))[x]
      {
        assert States()[x] == tasks[x].state;
      }
    }

    lemma AboutIds()
      requires Valid()
      ensures forall x :: x in tasks ==> tasks[x].id == x
    {
    }

    /** The tasks in a given state, in any order. */
    method TasksIn(state: TaskState) returns (found: seq<Task>)
      requires Valid()
      ensures Distinct(found)
      ensures forall t :: t in found <==> t in tasks.Values && t.state == state
    {
      hide Describes;
      AboutIds();
      found := [];
      var todo := tasks.Keys;
      while todo != {}
        invariant todo <= tasks.Keys
        invariant Distinct(found)
        invariant forall t :: t in found <==>
                    t in tasks.Values && t.id in tasks && t.id !in todo && tasks[t.id] == t && t.state == state
      {
        var x :| x in todo;
        if tasks[x].state == state {
          assert tasks[x] !in found;
          found := found + [tasks[x]];
        }
        todo := todo - {x};
      }
    }

    method Cancel()
      requires Valid()
      modifies tasks.Values`state
      ensures States() == CancelAll(old(States()))
      ensures forall x :: x in tasks ==>
                tasks[x].state == if old(tasks[x].state).IsTerminal() then old(tasks[x].state) else Cancelled
    {
      ghost var s := States();
      ghost var now := s;
      var todo := tasks.Keys;
      hide Describes;
      while todo != {}
        invariant todo <= tasks.Keys
        invariant now == States() && now.Keys == s.Keys
        invariant forall x :: x in s ==> now[x] == if x in todo then s[x] else CancelAll(s)[x]
      {
        var x :| x in todo;
        if !tasks[x].state.IsTerminal() {
          SetState(x, Cancelled);
        }
        now := States();
        todo := todo - {x};
      }
      assert forall x :: x in tasks ==> tasks[x].state == now[x];
    }

    // ----- Complete -----

    /** What a child's condition says about it, once all its parents are finished. */
    method Decide(c: string) returns (state: TaskState)
      requires Valid() && c in tasks
      ensures Fits(shape, States())
      ensures state == Verdict(shape, States(), c)
      ensures tasks[c].condition == "always" ==> state == Ready
      ensures tasks[c].condition == "on_failure" ==>
        state == if exists p :: p in deps[c] && p in tasks && (tasks[p].state == Failed || tasks[p].state == TimedOut)
                 then Ready else Skipped
      ensures tasks[c].condition != "always" && tasks[c].condition != "on_failure" ==>
        state == if forall p :: p in deps[c] ==> p in tasks && tasks[p].state == Passed then Ready else Pending
    {
      AboutTask(c);
      FitsNow();
      hide Describes, AllDepsPassed, AnyDepFailed, Shape.Valid;
      var anyFailed := AnyDepHasFailed(c);
      var allPassed := AllDepsComplete(c);
      match PolicyOf(tasks[c].condition)
      case OnFailure => return if anyFailed then Ready else Skipped;
      case Always => return Ready;
      case OnSuccess => return if allPassed then Ready else Pending;
    }

    /** The state that a child of a finished task should now have. */
    method Consider(parent: string, c: string) returns (state: TaskState)
      requires Valid() && parent in tasks && c in edges[parent]
      ensures Fits(shape, States()) && c in States() && c in tasks
      ensures UnlockChild(shape, States(), c) == States()[c := state]
    {
      hide Describes, UnlockChild, Verdict, Skippable, Shape.Valid, AllDepsTerminal;
      AboutChild(parent, c);
      FitsNow();
      UnlockChildVerdict(shape, States(), c);
      assert States()[c := tasks[c].state] == States();
      if tasks[c].state != Pending {
        return tasks[c].state;
      }
      var terminal := AllDepsAreTerminal(c);
      if !terminal {
        return Pending;
      }
      state := Decide(c);
    }

    /** Visits one child of a finished task. */
    method UnlockOne(parent: string, c: string) returns (unlocked: bool)
      requires Valid() && parent in tasks && c in edges[parent]
      modifies tasks.Values`state
      ensures Fits(shape, old(States())) && c in States()
      ensures States() == UnlockChild(shape, old(States()), c)
      ensures unlocked == (old(States())[c] == Pending && States()[c] == Ready)
    {
      var state := Consider(parent, c);
      assert States()[c] == tasks[c].state;
      hide *;
      unlocked := tasks[c].state == Pending && state == Ready;
      SetState(c, state);
    }

    /** Visits the children of a finished task, in the order that is returned. */
    method UnlockChildren(parent: string)
      returns (unlocked: seq<Task>, ghost visited: seq<string>, ghost ids: seq<string>)
      requires Valid() && parent in tasks
      modifies tasks.Values`state
      ensures Fits(shape, old(States())) && IsListing(visited, edges[parent])
      ensures States() == Unlock(shape, old(States()), visited)
      ensures Names(tasks, unlocked, ids) && AreUnlocked(shape, old(States()), visited, ids)
    {
      FitsNow();
      hide Describes;
      ghost var s := States();
      unlocked, visited, ids := [], [], [];
      var todo := edges[parent];
      NothingUnlocked(shape, s, tasks, edges[parent]);
      hide *;
      while todo != {}
        invariant todo <= edges[parent] && IsListing(visited, edges[parent] - todo)
        invariant States() == Unlock(shape, s, visited)
        invariant Names(tasks, unlocked, ids) && AreUnlocked(shape, s, visited, ids)
      {
        var c :| c in todo;
        AboutChild(parent, c);
        var ready := UnlockOne(parent, c);
        UnlockedStep(shape, s, visited, ids, c, edges[parent], todo);
        visited := visited + [c];
        NamesExtend(tasks, unlocked, ids, c);
        if ready {
          unlocked, ids := unlocked + [tasks[c]], ids + [c];
        }
        todo := todo - {c};
      }
    }

    /** What the condition of a task says when its parents are finished. */
    ghost predicate Says(x: string, verdict: TaskState)
      reads this, tasks.Values
    {
      && x in tasks && x in deps && (forall p :: p in deps[x] ==> p in tasks && tasks[p].state.IsTerminal())
      && if tasks[x].condition == "always" then verdict == Ready
         else if tasks[x].condition == "on_failure" then
           verdict ==
             if exists p :: p in deps[x] && (tasks[p].state == Failed || tasks[p].state == TimedOut)
             then Ready else Skipped
         else verdict == Ready && forall p :: p in deps[x] ==> tasks[p].state == Passed
    }

    /** A child whose condition does not let it wait any longer, or that the cascade has skipped. */
    ghost predicate Decided(c: string, outcome: TaskState)
      reads this, tasks.Values
    {
      && c in tasks && c in deps
      && if tasks[c].condition != "always" && tasks[c].condition != "on_failure" then
           tasks[c].state ==
             if outcome == Failed || outcome == TimedOut then Skipped
             else if forall p :: p in deps[c] ==> p in tasks && tasks[p].state == Passed then Ready else Pending
         else Says(c, tasks[c].state)
    }

    /** A child that waited only for this task. */
    ghost predicate WaitsFor(c: string, id: string)
      reads this, tasks.Values
    {
      && id in edges && c in edges[id] && c in tasks && tasks[c].state == Pending && c in deps
      && forall p :: p in deps[c] && p != id ==> p in tasks && tasks[p].state.IsTerminal()
    }

    lemma SaysIff(x: string, verdict: TaskState)
      requires Valid() && x in tasks && Fits(shape, States())
      ensures ChildVerdicts.Called(shape, States(), x, verdict) <==> Says(x, verdict)
    {
      AboutTask(x);
      AboutDeps(x);
      hide Describes;
    }

    lemma AboutDeps(x: string)
      requires Valid() && x in tasks
      ensures Fits(shape, States()) && x in deps && deps[x] == shape.deps[x]
      ensures forall p :: p in deps[x] ==> p in tasks && p in States() && States()[p] == tasks[p].state
    {
      forall p | p in deps[x]
        ensures p in tasks
      {
        AboutParent(x, p);
      }
    }

    /** The task has been completed, with this effect on the states of all tasks. */
    twostate predicate Completed(done: Completion)
      reads this, tasks.Values
    {
      && old(Valid()) && unchanged(this) && Fits(shape, old(States())) && done.task in tasks
      && done.outcome.IsTerminal() && CanMove(old(States())[done.task], done.outcome)
      && IsListing(done.visited, edges[done.task])
      && States() == Finish(shape, old(States()), done.task, done.outcome, done.visited)
    }

    /** A child that waited only for this task. */
    twostate lemma ChildDecided(at: (Completion, string))
      requires Completed(at.0) && old(WaitsFor(at.1, at.0.task))
      ensures Decided(at.1, at.0.outcome)
    {
      var (done, c) := at;
      hide Describes, Finish, CanMove, IsListing, Shape.Valid;
      FitsNow();
      ChildVerdicts.FinishedChild(shape, old(States()), done.task, done.outcome, done.visited, c);
      AboutTask(c);
      AboutDeps(c);
    }

    /** Another task that has changed. */
    twostate lemma ChangeExplained(at: (Completion, string))
      requires Completed(at.0) && at.1 in tasks
      requires old(CascadeReaches(at.0.task, at.1)) <==>
                 SkipReach(shape, old(States())[at.0.task := at.0.outcome], at.0.task, at.1)
      ensures tasks[at.0.task].state == at.0.outcome
      ensures ChangedBy(at.1, at.0.task, at.0.outcome)
    {
      var (done, x) := at;
      hide Describes, Finish, CanMove, IsListing, CascadeReaches, SkipReach, ChildVerdicts.Called, Says;
      FitsNow();
      StateOf(x);
      StateOf(done.task);
      ChildVerdicts.ChangedBy(shape, old(States()), done.task, done.outcome, done.visited, x);
      SaysIff(x, tasks[x].state);
    }

    /** If a task other than the finished one has changed, the cascade came to it and skipped it,
        or it is a child that waited and is now as its condition says. */
    twostate predicate ChangedBy(x: string, id: string, outcome: TaskState)
      requires x in tasks && x in old(tasks)
      reads this, tasks.Values
    {
      x != id && tasks[x].state != old(tasks[x].state) ==>
        || (tasks[x].state == Skipped && (outcome == Failed || outcome == TimedOut) && old(CascadeReaches(id, x)))
        || (id in edges && x in edges[id] && old(tasks[x].state) == Pending && Says(x, tasks[x].state))
    }

    /** The effect on all tasks. */
    twostate lemma CompletionExplained(done: Completion)
      requires Completed(done)
      requires forall x :: old(CascadeReaches(done.task, x)) <==>
                 SkipReach(shape, old(States())[done.task := done.outcome], done.task, x)
      ensures tasks[done.task].state == done.outcome
      ensures forall c :: old(WaitsFor(c, done.task)) ==> Decided(c, done.outcome)
      ensures forall x :: x in tasks ==> ChangedBy(x, done.task, done.outcome)
    {
      hide WaitsFor, Decided, ChangedBy, CascadeReaches, SkipReach;
      ChangeExplained((done, done.task));
      forall c | old(WaitsFor(c, done.task))
        ensures Decided(c, done.outcome)
      {
        ChildDecided((done, c));
      }
      forall x | x in tasks
        ensures ChangedBy(x, done.task, done.outcome)
      {
        ChangeExplained((done, x));
      }
    }

    lemma ListedTasks(list: seq<Task>, ids: seq<string>)
      requires Valid() && Names(tasks, list, ids) && Distinct(ids)
      ensures Distinct(list)
      ensures forall t: Task :: t in tasks.Values ==> t.id in tasks && tasks[t.id] == t
      ensures forall t: Task :: t in list <==> t in tasks.Values && t.id in ids
    {
      AboutIds();
      hide Describes;
      forall t: Task | t in tasks.Values && t.id in ids
        ensures t in list
      {
        var i :| 0 <= i < |ids| && ids[i] == t.id;
        assert list[i] == t;
      }
      forall t: Task | t in list
        ensures t in tasks.Values && t.id in ids
      {
        var i :| 0 <= i < |list| && list[i] == t;
        assert tasks[ids[i]] == t;
      }
    }

    /** The tasks that are returned. */
    twostate lemma ReadyExplained(new at: (Completion, seq<Task>, seq<string>))
      requires Completed(at.0) && Names(tasks, at.1, at.2)
      requires AreUnlocked(shape, Settle(shape, old(States()), at.0.task, at.0.outcome), at.0.visited, at.2)
      ensures Distinct(at.1)
      ensures forall t: Task :: t in at.1 <==>
                t in tasks.Values && t.id in edges[at.0.task] && old(t.state) == Pending && t.state == Ready
    {
      var (done, ready, ids) := at;
      hide Finish, Settle, Unlock, CanMove, IsListing;
      AboutIds();
      forall x | x in tasks
        ensures x in ids <==> x in edges[done.task] && old(tasks[x].state) == Pending && tasks[x].state == Ready
      {
        ChildVerdicts.ReadySeen(shape, old(States()), done.task, done.outcome, done.visited, x);
      }
      hide *;
      ListedTasks(ready, ids);
    }

    /** The tasks that are skipped when one has failed. */
    twostate lemma SkippedExplained(done: Completion)
      requires unchanged(this)
      requires done.outcome.IsBroken() ==> forall x :: x in States() ==>
                 (States()[x] == Skipped && old(States())[x] != Skipped <==>
                  SkipReach(shape, old(States())[done.task := done.outcome], done.task, x))
      requires forall x :: old(CascadeReaches(done.task, x)) <==>
                 SkipReach(shape, old(States())[done.task := done.outcome], done.task, x)
      ensures done.outcome == Failed || done.outcome == TimedOut ==> forall x :: x in tasks ==>
                (tasks[x].state == Skipped && old(tasks[x].state) != Skipped <==> old(CascadeReaches(done.task, x)))
    {
      hide SkipReach, CascadeReaches;
      forall x | x in tasks && done.outcome.IsBroken()
        ensures States()[x] == tasks[x].state && old(States())[x] == old(tasks[x].state)
      {
      }
    }

    method Complete(taskID: string, outcome: TaskState, exitCode: int, message: string, now: int)
      returns (newlyReady: seq<Task>, err: Option<GraphError>, ghost visited: seq<string>, ghost ids: seq<string>)
      requires Valid()
      modifies tasks.Values
      ensures Fits(shape, old(States()))
      ensures err == if taskID !in tasks then Some(TaskNotFound)
                     else if !CanMove(old(tasks[taskID].state), outcome) then Some(InvalidTransition) else None
      ensures err.Some? ==> newlyReady == [] && forall x :: x in tasks ==> unchanged(tasks[x])
      ensures taskID in tasks ==> IsListing(visited, edges[taskID])
      ensures States() == Finish(shape, old(States()), taskID, outcome, visited)
      ensures err.None? && outcome.IsBroken() ==> forall x :: x in States() ==>
                (States()[x] == Skipped && old(States())[x] != Skipped <==>
                 SkipReach(shape, old(States())[taskID := outcome], taskID, x))
      ensures err.None? && outcome.IsTerminal() ==>
        && tasks[taskID].state == outcome
        && (forall c :: old(WaitsFor(c, taskID)) ==> Decided(c, outcome))
        && forall x :: x in tasks ==> ChangedBy(x, taskID, outcome)
      ensures err.None? && (outcome == Failed || outcome == TimedOut) ==> forall x :: x in tasks ==>
                (tasks[x].state == Skipped && old(tasks[x].state) != Skipped <==> old(CascadeReaches(taskID, x)))
      ensures err.None? && outcome.IsTerminal() ==>
        && Distinct(newlyReady)
        && forall t: Task :: t in newlyReady <==>
             t in tasks.Values && t.id in edges[taskID] && old(t.state) == Pending && t.state == Ready
      ensures err.None? ==> tasks[taskID].exitCode == exitCode && tasks[taskID].errorMessage == message
      ensures err.None? && outcome.IsTerminal() ==> tasks[taskID].finishedAt == now
      ensures err.None? ==> forall x :: x in tasks && x != taskID ==> OutcomeKept(tasks[x])
      ensures err.None? ==>
        && Names(tasks, newlyReady, ids)
        && AreUnlocked(shape, Settle(shape, old(States()), taskID, outcome), visited, ids)
    {
      hide Describes, States, Finish, CanMove, WaitsFor, Decided, ChangedBy, CascadeReaches, SkipReach, Names,
           AreUnlocked, IsListing, Settle, Shape.Valid;
      FitsNow();
      StateOf(taskID);
      if taskID in tasks && outcome.IsTerminal() {
        AllSkipReachSeen(taskID, outcome);
      }
      newlyReady, err, visited, ids := Perform(taskID, outcome, exitCode, message, now);
      if err.None? && outcome.IsTerminal() {
        ghost var done := Completion(taskID, outcome, visited);
        assert Completed(done);
        CompletionExplained(done);
        SkippedExplained(done);
        ReadyExplained((done, newlyReady, ids));
      }
    }

    /** The same, in terms of the states of all tasks. */
    method Perform(taskID: string, outcome: TaskState, exitCode: int, message: string, now: int)
      returns (newlyReady: seq<Task>, err: Option<GraphError>, ghost visited: seq<string>, ghost ids: seq<string>)
      requires Valid()
      modifies tasks.Values
      ensures Fits(shape, old(States()))
      ensures err == if taskID !in tasks then Some(TaskNotFound)
                     else if !CanMove(old(tasks[taskID].state), outcome) then Some(InvalidTransition) else None
      ensures err.Some? ==> newlyReady == [] && forall x :: x in tasks ==> unchanged(tasks[x])
      ensures taskID in tasks ==> IsListing(visited, edges[taskID])
      ensures States() == Finish(shape, old(States()), taskID, outcome, visited)
      ensures err.None? && outcome.IsBroken() ==> forall x :: x in States() ==>
                (States()[x] == Skipped && old(States())[x] != Skipped <==>
                 SkipReach(shape, old(States())[taskID := outcome], taskID, x))
      ensures err.None? ==> tasks[taskID].exitCode == exitCode && tasks[taskID].errorMessage == message
      ensures err.None? && outcome.IsTerminal() ==> tasks[taskID].finishedAt == now
      ensures err.None? ==> forall x :: x in tasks && x != taskID ==> OutcomeKept(tasks[x])
      ensures err.None? ==>
        && Names(tasks, newlyReady, ids)
        && AreUnlocked(shape, Settle(shape, old(States()), taskID, outcome), visited, ids)
    {
      hide Describes, States, Finish, CanMove, IsListing, Unlock, AreUnlocked, Names, Shape.Valid, SkipReach;
      FitsNow();
      FinishIs(shape, States(), taskID, outcome);
      StateOf(taskID);
      if taskID !in tasks {
        return [], Some(TaskNotFound), [], [];
      }
      visited := SomeListing(edges[taskID]);
      OtherTasks(taskID);
      var ok := Record(taskID, outcome, exitCode, message, now);
      if !ok {
        return [], Some(InvalidTransition), visited, [];
      }
      StateOf(taskID);
      newlyReady, visited, ids := Propagate(taskID, outcome);
      AllSkippedExactly(shape, old(States()), taskID, outcome, visited);
      err := None;
    }

    /** What Complete does once the finished task has its outcome. */
    method Propagate(taskID: string, outcome: TaskState)
      returns (newlyReady: seq<Task>, ghost visited: seq<string>, ghost ids: seq<string>)
      requires Valid() && taskID in tasks && tasks[taskID].state == outcome
      modifies tasks.Values`state
      ensures Fits(shape, old(States())) && IsListing(visited, edges[taskID])
      ensures var t := Spread(shape, old(States()), taskID, outcome);
        States() == Unlock(shape, t, visited)
        && Names(tasks, newlyReady, ids) && AreUnlocked(shape, t, visited, ids)
    {
      FitsNow();
      if outcome == Failed || outcome == TimedOut {
        ghost var written := SkipDownstream(taskID);
      }
      hide *;
      newlyReady, visited, ids := UnlockChildren(taskID);
    }

    /** Nothing that was recorded when the task ran has changed. */
    twostate predicate OutcomeKept(t: Task)
      reads t
    {
      && t.exitCode == old(t.exitCode) && t.errorMessage == old(t.errorMessage)
      && t.startedAt == old(t.startedAt) && t.finishedAt == old(t.finishedAt)
    }

    /** Moves the finished task itself, if its state allows the outcome. */
    method Record(taskID: string, outcome: TaskState, exitCode: int, message: string, now: int) returns (ok: bool)
      requires Valid() && taskID in tasks
      modifies {tasks[taskID]}
      ensures ok == CanMove(old(States())[taskID], outcome)
      ensures States() == if ok then old(States())[taskID := outcome] else old(States())
      ensures !ok ==> unchanged(tasks[taskID])
      ensures ok ==> tasks[taskID].exitCode == exitCode && tasks[taskID].errorMessage == message
      ensures ok && outcome.IsTerminal() ==> tasks[taskID].finishedAt == now
    {
      hide Describes, States, CanMove;
      OtherTasks(taskID);
      var task := tasks[taskID];
      ok := task.TransitionTo(outcome, now);
      if ok {
        task.exitCode := exitCode;
        task.errorMessage := message;
      }
      StatesWritten(taskID);
    }

    /** The states when no task but one has changed. */
    twostate lemma StatesWritten(x: string)
      requires x in tasks && tasks == old(tasks)
      requires forall y :: y in tasks && y != x ==> tasks[y].state == old(tasks[y].state)
      ensures States() == old(States())[x := tasks[x].state]
      ensures old(States()[x] == tasks[x].state)
    {
    }

    method IsComplete() returns (r: bool)
      requires Valid()
      ensures r == forall x :: x in States() ==> States()[x].IsTerminal()
      ensures r == forall x :: x in tasks ==> tasks[x].state.IsTerminal()
    {
      var todo := tasks.Keys;
      while todo != {}
        invariant todo <= tasks.Keys
        invariant forall x :: x in tasks.Keys - todo ==> tasks[x].state.IsTerminal()
      {
        var x :| x in todo;
        if !tasks[x].state.IsTerminal() {
          assert !States()[x].IsTerminal();
          return false;
        }
        todo := todo - {x};
      }
      return true;
    }

    method IsPassed() returns (r: bool)
      requires Valid()
      ensures r == forall x :: x in States() ==> States()[x] == Passed
      ensures r == forall x :: x in tasks ==> tasks[x].state == Passed
    {
      var todo := tasks.Keys;
      while todo != {}
        invariant todo <= tasks.Keys
        invariant forall x :: x in tasks.Keys - todo ==> tasks[x].state == Passed
      {
        var x :| x in todo;
        if tasks[x].state != Passed {
          assert States()[x] != Passed;
          return false;
        }
        todo := todo - {x};
      }
      return true;
    }
  }
}
