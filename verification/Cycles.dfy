/** Cycles of a task graph, and what an order with parents first says about them. */
module Cycles {
  import opened Collections
  import opened GraphSpec

  ghost predicate Path(g: Shape, path: seq<string>) {
    path != [] && forall i :: 0 < i < |path| ==> g.Edge(path[i - 1], path[i])
  }

  ghost predicate Loop(g: Shape, path: seq<string>) {
    Path(g, path) && |path| >= 2 && path[0] == path[|path| - 1]
  }

  ghost predicate Cyclic(g: Shape) {
    exists path :: Loop(g, path)
  }

  /** A path that starts by going round a loop of n edges. */
  ghost predicate LoopsFirst(g: Shape, path: seq<string>, n: nat) {
    Path(g, path) && 0 < n < |path| && path[n] == path[0]
  }

  /** The task lies on a cycle or downstream of one. */
  ghost predicate OnOrBelowCycle(g: Shape, x: string) {
    exists path, n: nat :: LoopsFirst(g, path, n) && path[|path| - 1] == x
  }

  ghost function Looped(g: Shape): set<string> {
    set x | x in g.Ids() && OnOrBelowCycle(g, x)
  }

  ghost predicate ParentsFirst(g: Shape, order: seq<string>) {
    forall i, p :: 0 <= i < |order| && g.Edge(p, order[i]) ==> p in order[..i]
  }

  /** A permutation of the tasks with each parent before its children. */
  ghost predicate Topological(g: Shape, order: seq<string>) {
    IsListing(order, g.Ids()) && ParentsFirst(g, order)
  }

  /** Along a path that ends at the k-th task of the order, all that comes before is earlier. */
  lemma {:induction false} PathRunsEarlier(g: Shape, order: seq<string>, path: seq<string>, k: nat, j: nat)
    requires ParentsFirst(g, order) && Path(g, path)
    requires k < |order| && path[|path| - 1] == order[k] && j < |path| - 1
    ensures path[j] in order[..k]
    decreases |path|
  {
    var init := path[..|path| - 1];
    var p := init[|init| - 1];
    assert g.Edge(p, order[k]);
    if j < |init| - 1 {
      var i :| 0 <= i < k && order[i] == p;
      PathRunsEarlier(g, order, init, i, j);
    }
  }

  lemma OrderAvoidsCycles(g: Shape, order: seq<string>, x: string)
    requires Distinct(order) && ParentsFirst(g, order) && x in order
    ensures !OnOrBelowCycle(g, x)
  {
    if OnOrBelowCycle(g, x) {
      var path, n: nat :| LoopsFirst(g, path, n) && path[|path| - 1] == x;
      var k :| 0 <= k < |order| && order[k] == x;
      var m := k;
      if n < |path| - 1 {
        PathRunsEarlier(g, order, path, k, n);
        m :| 0 <= m < k && order[m] == path[n];
      }
      PathRunsEarlier(g, order, path[..n + 1], m, 0);
    }
  }

  ghost predicate HasParentIn(g: Shape, group: set<string>, x: string) {
    exists p :: p in group && g.Edge(p, x)
  }

  ghost predicate EveryoneHasParent(g: Shape, group: set<string>) {
    forall x {:trigger HasParentIn(g, group, x)} :: x in group ==> HasParentIn(g, group, x)
  }

  /** Inside a set whose members all have parents in the set, one can walk back for ever. */
  lemma {:induction false} WalkBack(g: Shape, group: set<string>, x: string, length: nat) returns (path: seq<string>)
    requires EveryoneHasParent(g, group)
    requires x in group
    ensures Path(g, path) && |path| == length + 1 && path[|path| - 1] == x && Elements(path) <= group
    decreases length
  {
    if length == 0 {
      path := [x];
    } else {
      assert HasParentIn(g, group, x);
      var p :| p in group && g.Edge(p, x);
      var rest := WalkBack(g, group, p, length - 1);
      path := rest + [x];
    }
  }

  lemma RepeatIsLoop(g: Shape, path: seq<string>, i: nat, j: nat)
    requires Path(g, path) && i < j < |path| && path[i] == path[j]
    ensures OnOrBelowCycle(g, path[|path| - 1])
  {
    var tail := path[i..];
    forall k | 0 < k < |tail|
      ensures g.Edge(tail[k - 1], tail[k])
    {
      assert tail[k - 1] == path[i + k - 1] && tail[k] == path[i + k];
    }
    assert LoopsFirst(g, tail, j - i) && tail[|tail| - 1] == path[|path| - 1];
  }

  /** Every member of such a set is on or below a cycle. */
  lemma NoSourceMeansCycle(g: Shape, group: set<string>, x: string)
    requires EveryoneHasParent(g, group)
    requires x in group
    ensures OnOrBelowCycle(g, x)
  {
    var path := WalkBack(g, group, x, |group|);
    var i, j := Pigeonhole(path, group);
    RepeatIsLoop(g, path, i, j);
  }

  lemma CyclicIff(g: Shape)
    ensures Cyclic(g) <==> exists x :: OnOrBelowCycle(g, x)
  {
    if Cyclic(g) {
      var path :| Loop(g, path);
      assert LoopsFirst(g, path, |path| - 1);
      assert OnOrBelowCycle(g, path[|path| - 1]);
    }
    if x :| OnOrBelowCycle(g, x) {
      var path, n: nat :| LoopsFirst(g, path, n) && path[|path| - 1] == x;
      assert Loop(g, path[..n + 1]);
    }
  }

  /** A graph without cycles has, in every nonempty set of tasks, one with no parent there. */
  lemma SourceExists(g: Shape, group: set<string>) returns (x: string)
    requires !Cyclic(g) && group != {}
    ensures x in group && forall p :: g.Edge(p, x) ==> p !in group
  {
    if EveryoneHasParent(g, group) {
      var y :| y in group;
      NoSourceMeansCycle(g, group, y);
      CyclicIff(g);
      assert false;
    }
    x :| x in group && !HasParentIn(g, group, x);
  }

  /** A topological order exists only for a graph without cycles. */
  lemma TopologicalMeansAcyclic(g: Shape, order: seq<string>)
    requires g.Valid() && Topological(g, order)
    ensures !Cyclic(g)
  {
    CyclicIff(g);
    if x :| OnOrBelowCycle(g, x) {
      BelowCycleIsTask(g, x);
      OrderAvoidsCycles(g, order, x);
      assert false;
    }
  }

  lemma BelowCycleIsTask(g: Shape, x: string)
    requires g.Valid() && OnOrBelowCycle(g, x)
    ensures x in g.Ids()
  {
    var path, n: nat :| LoopsFirst(g, path, n) && path[|path| - 1] == x;
    assert g.Edge(path[|path| - 2], path[|path| - 1]);
  }

  // ----- Kahn's algorithm -----

  ghost function UnmetParents(g: Shape, order: seq<string>, x: string): nat
    requires x in g.deps
  {
    |g.deps[x] - Elements(order)|
  }

  /** Each task has as many unmet parents as its in-degree says, where the children in todo
      have yet to be relaxed. */
  ghost predicate DegreesCount(g: Shape, inDegree: map<string, int>, order: seq<string>, todo: set<string>)
    requires g.Valid()
  {
    inDegree.Keys == g.Ids()
    && forall x :: x in inDegree ==>
         inDegree[x] == UnmetParents(g, order, x) + (if x in todo then 1 else 0)
  }

  /** What has been queued, and perhaps already ordered, is what has in-degree zero. */
  ghost predicate ZeroesQueued(inDegree: map<string, int>, placed: seq<string>) {
    Distinct(placed) && forall x :: x in placed <==> x in inDegree && inDegree[x] == 0
  }

  ghost predicate Kahn(g: Shape, inDegree: map<string, int>, queue: seq<string>, order: seq<string>,
                       todo: set<string>)
  {
    g.Valid() && DegreesCount(g, inDegree, order, todo) && ZeroesQueued(inDegree, order + queue)
    && ParentsFirst(g, order)
  }

  lemma KahnStart(g: Shape, inDegree: map<string, int>, queue: seq<string>)
    requires g.Valid() && inDegree.Keys == g.Ids() && forall x :: x in inDegree ==> inDegree[x] == |g.deps[x]|
    requires ZeroesQueued(inDegree, queue)
    ensures Kahn(g, inDegree, queue, [], {})
  {
    assert [] + queue == queue;
    forall x | x in inDegree
      ensures inDegree[x] == UnmetParents(g, [], x)
    {
      assert g.deps[x] - Elements([]) == g.deps[x];
    }
  }

  lemma UnmetAfter(g: Shape, order: seq<string>, node: string, x: string)
    requires g.Valid() && x in g.deps && node !in order
    ensures UnmetParents(g, order, x)
            == UnmetParents(g, order + [node], x) + (if g.Edge(node, x) then 1 else 0)
  {
    var unmet := g.deps[x] - Elements(order);
    assert Elements(order + [node]) == Elements(order) + {node};
    assert g.deps[x] - Elements(order + [node]) == unmet - {node};
    assert node in unmet <==> g.Edge(node, x);
  }

  lemma PopCounts(g: Shape, inDegree: map<string, int>, order: seq<string>, node: string)
    requires g.Valid() && DegreesCount(g, inDegree, order, {}) && node in g.Ids() && node !in order
    ensures DegreesCount(g, inDegree, order + [node], g.edges[node])
  {
    hide UnmetParents;
    forall x | x in inDegree
      ensures inDegree[x] == UnmetParents(g, order + [node], x) + (if x in g.edges[node] then 1 else 0)
    {
      UnmetAfter(g, order, node, x);
      assert g.Edge(node, x) <==> x in g.edges[node];
    }
  }

  lemma NoneUnmet(g: Shape, order: seq<string>, x: string, p: string)
    requires g.Valid() && x in g.deps && UnmetParents(g, order, x) == 0 && g.Edge(p, x)
    ensures p in order
  {
    assert p !in g.deps[x] - Elements(order);
  }

  lemma ParentsFirstExtends(g: Shape, order: seq<string>, node: string)
    requires ParentsFirst(g, order) && forall p :: g.Edge(p, node) ==> p in order
    ensures ParentsFirst(g, order + [node])
  {
    var longer := order + [node];
    forall i, p | 0 <= i < |longer| && g.Edge(p, longer[i])
      ensures p in longer[..i]
    {
      assert longer[..i] == order[..i];
      if i < |order| {
        assert longer[i] == order[i];
      }
    }
  }

  lemma PopOrders(g: Shape, inDegree: map<string, int>, order: seq<string>, node: string)
    requires g.Valid() && DegreesCount(g, inDegree, order, {}) && ParentsFirst(g, order)
    requires node in inDegree && inDegree[node] == 0
    ensures ParentsFirst(g, order + [node])
  {
    forall p | g.Edge(p, node)
      ensures p in order
    {
      NoneUnmet(g, order, node, p);
    }
    ParentsFirstExtends(g, order, node);
  }

  lemma ChildrenAreTasks(g: Shape, node: string)
    requires g.Valid() && node in g.edges
    ensures g.edges[node] <= g.Ids()
  {
    assert forall c :: c in g.edges[node] ==> g.Edge(node, c);
  }

  /** Moving the head of the queue to the order leaves its children to be relaxed. */
  lemma KahnPop(g: Shape, inDegree: map<string, int>, queue: seq<string>, order: seq<string>)
    requires Kahn(g, inDegree, queue, order, {}) && queue != []
    ensures queue[0] in g.edges && g.edges[queue[0]] <= inDegree.Keys
    ensures Kahn(g, inDegree, queue[1..], order + [queue[0]], g.edges[queue[0]])
  {
    var node := queue[0];
    assert order + [node] + queue[1..] == order + queue;
    assert (order + queue)[|order|] == node;
    assert forall i :: 0 <= i < |order| ==> (order + queue)[i] == order[i];
    ChildrenAreTasks(g, node);
    PopCounts(g, inDegree, order, node);
    PopOrders(g, inDegree, order, node);
  }

  lemma RelaxQueues(inDegree: map<string, int>, placed: seq<string>, c: string)
    requires ZeroesQueued(inDegree, placed) && c in inDegree && inDegree[c] > 0
    ensures ZeroesQueued(inDegree[c := inDegree[c] - 1], if inDegree[c] == 1 then placed + [c] else placed)
  {
    if inDegree[c] == 1 {
      assert forall i :: 0 <= i < |placed| ==> placed[i] in placed;
    }
  }

  lemma RelaxCounts(g: Shape, inDegree: map<string, int>, order: seq<string>, todo: set<string>, c: string)
    requires g.Valid() && DegreesCount(g, inDegree, order, todo) && c in todo && c in inDegree
    ensures inDegree[c] > 0
    ensures DegreesCount(g, inDegree[c := inDegree[c] - 1], order, todo - {c})
  {
    hide UnmetParents;
    var after, left := inDegree[c := inDegree[c] - 1], todo - {c};
    assert after.Keys == inDegree.Keys;
    forall x | x in after
      ensures after[x] == UnmetParents(g, order, x) + (if x in left then 1 else 0)
    {
      assert x != c ==> after[x] == inDegree[x] && (x in left <==> x in todo);
    }
  }

  /** Relaxing one child takes it off the list, and queues it when nothing is unmet. */
  lemma KahnRelax(g: Shape, inDegree: map<string, int>, queue: seq<string>, order: seq<string>,
                  todo: set<string>, c: string)
    requires Kahn(g, inDegree, queue, order, todo) && c in todo && c in inDegree
    ensures inDegree[c] > 0
    ensures Kahn(g, inDegree[c := inDegree[c] - 1],
                 if inDegree[c] == 1 then queue + [c] else queue, order, todo - {c})
  {
    RelaxCounts(g, inDegree, order, todo, c);
    RelaxQueues(inDegree, order + queue, c);
    assert order + (queue + [c]) == (order + queue) + [c];
    hide *;
  }

  lemma KahnBound(g: Shape, inDegree: map<string, int>, queue: seq<string>, order: seq<string>, todo: set<string>)
    requires Kahn(g, inDegree, queue, order, todo)
    ensures |order| + |queue| <= |g.Ids()|
  {
    DistinctLength(order + queue);
    assert Elements(order + queue) <= g.Ids();
    SubsetSize(Elements(order + queue), g.Ids());
  }

  ghost function Unmet(inDegree: map<string, int>): set<string> {
    set x | x in inDegree && inDegree[x] > 0
  }

  lemma LeftoversHaveParents(g: Shape, inDegree: map<string, int>, order: seq<string>)
    requires g.Valid() && DegreesCount(g, inDegree, order, {}) && ZeroesQueued(inDegree, order)
    ensures EveryoneHasParent(g, g.Ids() - Elements(order))
  {
    var rest := g.Ids() - Elements(order);
    forall x | x in rest
      ensures HasParentIn(g, rest, x)
    {
      assert x !in order && UnmetParents(g, order, x) > 0;
      var p :| p in g.deps[x] - Elements(order);
      assert g.Edge(p, x);
    }
  }

  lemma UnmetIffLooped(g: Shape, inDegree: map<string, int>, order: seq<string>, x: string)
    requires g.Valid() && DegreesCount(g, inDegree, order, {}) && ZeroesQueued(inDegree, order)
    requires ParentsFirst(g, order) && x in g.Ids()
    ensures inDegree[x] > 0 <==> OnOrBelowCycle(g, x)
  {
    if x in order {
      OrderAvoidsCycles(g, order, x);
    } else {
      LeftoversHaveParents(g, inDegree, order);
      NoSourceMeansCycle(g, g.Ids() - Elements(order), x);
    }
  }

  /** When the queue runs dry, what was never queued is what lies on or below a cycle. */
  lemma KahnEnd(g: Shape, inDegree: map<string, int>, order: seq<string>)
    requires Kahn(g, inDegree, [], order, {})
    ensures Unmet(inDegree) == Looped(g)
    ensures |order| == |g.Ids()| <==> !Cyclic(g)
    ensures |order| == |g.Ids()| ==> Topological(g, order)
  {
    assert order + [] == order;
    assert Elements(order) <= g.Ids();
    UnmetIsLooped(g, inDegree, order);
    LoopedIff(g);
    KahnCounts(g, order);
    hide *;
  }

  lemma UnmetIsLooped(g: Shape, inDegree: map<string, int>, order: seq<string>)
    requires g.Valid() && DegreesCount(g, inDegree, order, {}) && ZeroesQueued(inDegree, order)
    requires ParentsFirst(g, order)
    ensures Unmet(inDegree) == Looped(g)
    ensures Elements(order) == g.Ids() <==> Looped(g) == {}
    ensures Elements(order) == g.Ids() ==> Topological(g, order)
  {
    hide OnOrBelowCycle, UnmetParents;
    forall x | x in g.Ids()
      ensures inDegree[x] > 0 <==> x in Looped(g)
      ensures x in order <==> x !in Looped(g)
    {
      UnmetIffLooped(g, inDegree, order, x);
    }
    AllOrdered(g, order);
  }

  lemma AllOrdered(g: Shape, order: seq<string>)
    requires forall x :: x in g.Ids() ==> (x in order <==> x !in Looped(g))
    requires Elements(order) <= g.Ids()
    ensures Elements(order) == g.Ids() <==> Looped(g) == {}
  {
    if Elements(order) == g.Ids() {
      assert forall x :: x in g.Ids() ==> x in Elements(order);
    }
    if Looped(g) == {} {
      assert forall x :: x in g.Ids() ==> x in order;
    }
  }

  lemma LoopedIff(g: Shape)
    requires g.Valid()
    ensures Looped(g) == {} <==> !Cyclic(g)
  {
    CyclicIff(g);
    if x :| OnOrBelowCycle(g, x) {
      BelowCycleIsTask(g, x);
      assert x in Looped(g);
    }
  }

  lemma KahnCounts(g: Shape, order: seq<string>)
    requires Distinct(order) && Elements(order) <= g.Ids()
    ensures |order| == |g.Ids()| <==> Elements(order) == g.Ids()
  {
    DistinctLength(order);
    assert |g.Ids()| == |Elements(order)| + |g.Ids() - Elements(order)| by {
      assert g.Ids() == Elements(order) + (g.Ids() - Elements(order));
    }
  }
}
