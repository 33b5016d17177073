/** When the order in which Complete visits the children, which is Go's map order, can be seen. */
module UnlockOrder {
  import opened Collections
  import opened Tasks
  import opened GraphSpec
  import opened GraphRuns
  import opened Cycles

  /** A child that Complete skips by its own condition, whenever it comes to it. */
  ghost predicate SkipsItself(g: Shape, t: States, id: string, a: string)
    requires Fits(g, t)
  {
    && g.Edge(id, a) && a in t && t[a] == Pending && g.policy[a] == OnFailure
    && AllDepsTerminal(g, t, a) && !AnyDepFailed(g, t, a)
  }

  /** A waiting child with a condition that is released exactly if it is visited after certain
      siblings: all that it still waits for are children that skip themselves. */
  ghost predicate Contested(g: Shape, t: States, id: string, b: string)
    requires Fits(g, t)
  {
    && g.Edge(id, b) && b in t && t[b] == Pending && !g.Default(b) && !AllDepsTerminal(g, t, b)
    && forall p :: p in g.deps[b] && !t[p].IsTerminal() ==> SkipsItself(g, t, id, p)
  }

  /** A child that is decided was Pending, and is now Ready, or has skipped itself. */
  lemma Decided(g: Shape, s: States, id: string, p: string)
    requires Fits(g, s) && g.Edge(id, p) && p in s && UnlockChild(g, s, p)[p] != s[p]
    ensures s[p] == Pending
    ensures UnlockChild(g, s, p)[p] == Ready || (UnlockChild(g, s, p)[p] == Skipped && SkipsItself(g, s, id, p))
  {
  }

  lemma Waits(g: Shape, s: States, p: string, c: string)
    requires Fits(g, s) && c in s && p in g.deps[c] && !s[p].IsTerminal()
    ensures !AllDepsTerminal(g, s, c) && UnlockChild(g, s, c) == s
  {
  }

  lemma NotPassed(g: Shape, s: States, p: string, c: string)
    requires Fits(g, s) && c in s && p in g.deps[c] && s[p] == Skipped && g.Default(c)
    ensures UnlockChild(g, s, c) == s
  {
  }

  lemma SameParents(g: Shape, s: States, t: States, c: string)
    requires Fits(g, s) && Fits(g, t) && c in s && t[c] == s[c]
    requires forall p :: p in g.deps[c] ==> t[p] == s[p]
    ensures UnlockChild(g, t, c)[c] == UnlockChild(g, s, c)[c]
  {
    assert AllDepsTerminal(g, t, c) <==> AllDepsTerminal(g, s, c);
    assert AllDepsPassed(g, t, c) <==> AllDepsPassed(g, s, c);
    assert AnyDepFailed(g, t, c) <==> AnyDepFailed(g, s, c);
    hide AllDepsTerminal, AllDepsPassed, AnyDepFailed;
  }

  /** Unless it is contested, what is decided about one child does not depend on the siblings
      visited before it. */
  lemma SiblingIgnored(g: Shape, s: States, t: States, id: string, c: string)
    requires Fits(g, s) && Fits(g, t) && g.Edge(id, c) && c in s && t[c] == s[c] && !Contested(g, s, id, c)
    requires forall p :: p in s && t[p] != s[p] ==> g.Edge(id, p) && t[p] == UnlockChild(g, s, p)[p]
    ensures UnlockChild(g, t, c)[c] == UnlockChild(g, s, c)[c]
  {
    if forall p :: p in g.deps[c] ==> t[p] == s[p] {
      SameParents(g, s, t, c);
    } else if s[c] == Pending {
      var q :| q in g.deps[c] && t[q] != s[q];
      Decided(g, s, id, q);
      Waits(g, s, q, c);
      StillWaits(g, s, t, id, c, q);
    }
  }

  lemma StillWaits(g: Shape, s: States, t: States, id: string, c: string, q: string)
    requires Fits(g, s) && Fits(g, t) && g.Edge(id, c) && c in s && t[c] == s[c] == Pending && !Contested(g, s, id, c)
    requires forall p :: p in s && t[p] != s[p] ==> g.Edge(id, p) && t[p] == UnlockChild(g, s, p)[p]
    requires q in g.deps[c] && t[q] != s[q] && s[q] == Pending && !AllDepsTerminal(g, s, c)
    ensures UnlockChild(g, t, c) == t
  {
    hide UnlockChild, AllDepsTerminal, SkipsItself;
    Decided(g, s, id, q);
    if p :| p in g.deps[c] && !t[p].IsTerminal() {
      Waits(g, t, p, c);
    } else if g.Default(c) {
      assert t[q] == Skipped;
      NotPassed(g, t, q, c);
    } else {
      var p :| p in g.deps[c] && !s[p].IsTerminal() && !SkipsItself(g, s, id, p);
      assert t[p] != s[p];
      Decided(g, s, id, p);
    }
  }

  lemma UnlockOnly(g: Shape, s: States, c: string)
    requires Fits(g, s)
    ensures forall x :: x in s && x != c ==> UnlockChild(g, s, c)[x] == s[x]
  {
    hide AnyDepFailed, AllDepsTerminal, AllDepsPassed, Shape.Valid;
  }

  lemma {:induction false} UnlockEach(g: Shape, s: States, id: string, order: seq<string>)
    requires Fits(g, s) && Distinct(order)
    requires forall x :: x in order ==> g.Edge(id, x) && x in s
    requires forall b :: !Contested(g, s, id, b)
    ensures forall x :: x in s ==>
              Unlock(g, s, order)[x] == if x in order then UnlockChild(g, s, x)[x] else s[x]
    decreases |order|
  {
    hide UnlockChild, Contested, Shape.Valid;
    if order != [] {
      var init, c := order[..|order| - 1], order[|order| - 1];
      UnlockEach(g, s, id, init);
      assert order == init + [c] && c !in init;
      SiblingIgnored(g, s, Unlock(g, s, init), id, c);
      UnlockOnly(g, Unlock(g, s, init), c);
    }
  }

  lemma SameUnlock(g: Shape, t: States, id: string, first: seq<string>, second: seq<string>)
    requires Fits(g, t) && id in g.edges && IsListing(first, g.edges[id]) && IsListing(second, g.edges[id])
    requires forall b :: !Contested(g, t, id, b)
    ensures Unlock(g, t, first) == Unlock(g, t, second)
  {
    hide Contested, UnlockChild;
    assert forall x :: x in first <==> x in Elements(first);
    assert forall x :: x in second <==> x in Elements(second);
    forall x | x in g.edges[id]
      ensures g.Edge(id, x) && x in t
    {
      assert g.Edge(id, x);
    }
    UnlockEach(g, t, id, first);
    UnlockEach(g, t, id, second);
  }

  // ----- both orders, if there is a contested child -----

  lemma {:induction false} UnlockRest(g: Shape, s: States, order: seq<string>, rest: seq<string>, x: string)
    requires Fits(g, s) && x in s && x !in rest
    ensures Unlock(g, s, order + rest)[x] == Unlock(g, s, order)[x]
    decreases |rest|
  {
    if rest == [] {
      assert order + rest == order;
    } else {
      var init := rest[..|rest| - 1];
      assert (order + rest)[..|order + rest| - 1] == order + init;
      UnlockRest(g, s, order, init, x);
    }
  }

  /** Children that skip themselves do so in any order. */
  lemma {:induction false} AllSkipThemselves(g: Shape, t: States, id: string, order: seq<string>)
    requires Fits(g, t) && Distinct(order) && forall a :: a in order ==> SkipsItself(g, t, id, a)
    ensures forall x :: x in t ==> Unlock(g, t, order)[x] == if x in order then Skipped else t[x]
    decreases |order|
  {
    hide UnlockChild, SkipsItself, Shape.Valid;
    SkippersPending(g, t, id, order);
    if order != [] {
      var init, c := order[..|order| - 1], order[|order| - 1];
      assert order == init + [c] && c !in init && c in order;
      assert forall a :: a in init ==> a in order;
      AllSkipThemselves(g, t, id, init);
      StillSkips(g, t, Unlock(g, t, init), id, c);
      UnlockOnly(g, Unlock(g, t, init), c);
    }
  }

  lemma SkippersPending(g: Shape, t: States, id: string, order: seq<string>)
    requires Fits(g, t) && forall a :: a in order ==> SkipsItself(g, t, id, a)
    ensures forall a :: a in order ==> a in t && t[a] == Pending
  {
  }

  lemma StillSkips(g: Shape, t: States, u: States, id: string, c: string)
    requires Fits(g, t) && Fits(g, u) && SkipsItself(g, t, id, c) && u[c] == t[c]
    requires forall x :: x in t && u[x] != t[x] ==> t[x] == Pending
    ensures UnlockChild(g, u, c)[c] == Skipped
  {
    assert forall p :: p in g.deps[c] ==> u[p] == t[p];
    assert AllDepsTerminal(g, u, c) && !AnyDepFailed(g, u, c);
  }

  /** After them, the contested child is decided. */
  lemma Released(g: Shape, t: States, u: States, id: string, b: string)
    requires Fits(g, t) && Fits(g, u) && Contested(g, t, id, b)
    requires forall x :: x in t ==> u[x] == if x in g.deps[b] && !t[x].IsTerminal() then Skipped else t[x]
    ensures UnlockChild(g, u, b)[b] != Pending
  {
    assert b !in g.deps[b] by {
      assert !g.Edge(b, b);
    }
    assert AllDepsTerminal(g, u, b);
  }

  lemma SingleListing(x: string)
    ensures IsListing([x], {x})
  {
    assert Elements([x]) == {x};
  }

  /** Two ways to list the children: with the contested one first, or just after those that it
      waits for. */
  lemma TwoListings(all: set<string>, waited: set<string>, b: string)
    returns (early: seq<string>, late: seq<string>, rest: seq<string>, others: seq<string>)
    requires waited <= all && b in all && b !in waited
    ensures IsListing(early, waited) && b !in rest && b !in others && late == early + [b]
    ensures IsListing(late + rest, all) && IsListing([b] + others, all)
  {
    early := SomeListing(waited);
    rest := SomeListing(all - waited - {b});
    others := SomeListing(all - {b});
    late := early + [b];
    hide IsListing;
    SingleListing(b);
    ListingConcat(early, waited, [b], {b});
    ListingConcat(late, waited + {b}, rest, all - waited - {b});
    ListingConcat([b], {b}, others, all - {b});
    assert waited + {b} + (all - waited - {b}) == all && {b} + (all - {b}) == all;
    NotListed(rest, all - waited - {b}, b);
    NotListed(others, all - {b}, b);
  }

  lemma NotListed(s: seq<string>, elements: set<string>, x: string)
    requires IsListing(s, elements) && x !in elements
    ensures x !in s
  {
    assert x in s ==> x in Elements(s);
  }

  lemma ContestedOrders(g: Shape, t: States, id: string, b: string) returns (first: seq<string>, second: seq<string>)
    requires Fits(g, t) && Contested(g, t, id, b)
    ensures IsListing(first, g.edges[id]) && IsListing(second, g.edges[id])
    ensures Unlock(g, t, first)[b] != Pending && Unlock(g, t, second)[b] == Pending
  {
    hide Contested, UnlockChild, SkipsItself, Unlock, IsListing;
    ContestedWaits(g, t, id, b);
    var waited := set p | p in g.deps[b] && !t[p].IsTerminal();
    var early, late, rest, others := TwoListings(g.edges[id], waited, b);
    first, second := late + rest, [b] + others;
    Listed(early, waited);
    AllSkipThemselves(g, t, id, early);
    Released(g, t, Unlock(g, t, early), id, b);
    UnlockLast(g, t, early, b);
    UnlockRest(g, t, late, rest, b);
    UnlockFirst(g, t, b);
    UnlockRest(g, t, [b], others, b);
  }

  lemma ContestedWaits(g: Shape, t: States, id: string, b: string)
    requires Fits(g, t) && Contested(g, t, id, b)
    ensures id in g.edges && b in g.edges[id] && b in t && t[b] == Pending && UnlockChild(g, t, b) == t
    ensures forall p :: p in g.deps[b] && !t[p].IsTerminal() ==>
              p != b && p in g.edges[id] && SkipsItself(g, t, id, p)
  {
    assert !g.Edge(b, b);
  }

  lemma Listed(order: seq<string>, elements: set<string>)
    requires IsListing(order, elements)
    ensures Distinct(order) && forall x :: x in order <==> x in elements
  {
    assert forall x :: x in order <==> x in Elements(order);
  }

  lemma UnlockLast(g: Shape, s: States, order: seq<string>, c: string)
    requires Fits(g, s)
    ensures Unlock(g, s, order + [c]) == UnlockChild(g, Unlock(g, s, order), c)
  {
    assert (order + [c])[..|order|] == order;
  }

  lemma UnlockFirst(g: Shape, s: States, c: string)
    requires Fits(g, s)
    ensures Unlock(g, s, [c]) == UnlockChild(g, s, c)
  {
    assert [c][..0] == [];
  }

  /** When a task completes, in any state at all, the order in which its children are visited can
      be seen exactly if one of them is contested. */
  lemma OrderInvisibleIff(g: Shape, s: States, id: string, outcome: TaskState)
    requires Fits(g, s) && id in s && CanMove(s[id], outcome)
    ensures (forall first, second :: IsListing(first, g.edges[id]) && IsListing(second, g.edges[id]) ==>
               Finish(g, s, id, outcome, first) == Finish(g, s, id, outcome, second))
            <==> forall b :: !Contested(g, Settle(g, s, id, outcome), id, b)
  {
    hide Contested, Settle, IsListing;
    var t := Settle(g, s, id, outcome);
    if b :| Contested(g, t, id, b) {
      var first, second := ContestedOrders(g, t, id, b);
      assert Finish(g, s, id, outcome, first) != Finish(g, s, id, outcome, second);
    } else {
      forall first, second | IsListing(first, g.edges[id]) && IsListing(second, g.edges[id])
        ensures Finish(g, s, id, outcome, first) == Finish(g, s, id, outcome, second)
      {
        SameUnlock(g, t, id, first, second);
      }
    }
  }

  /** Skipping the first child, by its own condition, can release the second. */
  ghost predicate Entangled(g: Shape, id: string, a: string, b: string) {
    && g.Edge(id, a) && g.Edge(id, b) && g.Edge(a, b)
    && a in g.policy && b in g.policy && g.policy[a] == OnFailure && !g.Default(b)
  }

  /** All is well but for two entangled children that still wait. */
  ghost function Waiting(g: Shape, id: string, a: string, b: string): (s: States)
    ensures s.Keys == g.edges.Keys
  {
    map x | x in g.edges :: if x == id then Running else if x == a || x == b then Pending else Passed
  }

  /** Where no two children are entangled, which can be seen from the graph alone, none is ever
      contested. */
  lemma ContestedMeansEntangled(g: Shape, t: States, id: string, b: string) returns (a: string)
    requires Fits(g, t) && Contested(g, t, id, b)
    ensures Entangled(g, id, a, b)
  {
    a :| a in g.deps[b] && !t[a].IsTerminal();
    assert g.Edge(a, b);
  }

  // ----- the smallest graphs on which it shows -----

  lemma UnlockPair(g: Shape, s: States, x: string, y: string)
    requires Fits(g, s)
    ensures Unlock(g, s, [x, y]) == UnlockChild(g, UnlockChild(g, s, x), y)
  {
    assert [x, y][..1] == [x] && [x][..0] == [];
    assert Unlock(g, s, []) == s;
    assert Unlock(g, s, [x]) == UnlockChild(g, s, x);
  }

  /** The states when the task that both wait for has passed. */
  lemma WaitingParents(g: Shape, id: string, a: string, b: string)
    requires g.Valid() && !Cyclic(g) && Entangled(g, id, a, b)
    ensures var t := Waiting(g, id, a, b)[id := Passed];
      && Fits(g, t) && t[a] == Pending && t[b] == Pending && a in g.deps[b] && a != b
      && (forall p :: p in g.deps[a] ==> t[p] == Passed)
      && (forall p :: p in g.deps[b] && p != a ==> t[p] == Passed)
  {
    if g.Edge(b, a) {
      assert Loop(g, [a, b, a]);
      assert false;
    }
    forall p | p in g.deps[a] || p in g.deps[b]
      ensures p != b
    {
      assert p in g.deps[a] ==> g.Edge(p, a);
      assert p in g.deps[b] ==> g.Edge(p, b);
    }
  }

  /** The first entangled child is skipped in any case; only then is the second one released. */
  lemma EntangledChildren(g: Shape, id: string, a: string, b: string)
    requires g.Valid() && !Cyclic(g) && Entangled(g, id, a, b)
    ensures var t := Waiting(g, id, a, b)[id := Passed];
      && Fits(g, t) && UnlockChild(g, t, a) == t[a := Skipped] && UnlockChild(g, t, b) == t
      && UnlockChild(g, t[a := Skipped], b)[b] != Pending
  {
    WaitingParents(g, id, a, b);
    hide Waiting, Cyclic;
    var t := Waiting(g, id, a, b)[id := Passed];
    assert AllDepsTerminal(g, t, a) && !AnyDepFailed(g, t, a);
    assert !AllDepsTerminal(g, t, b);
    assert AllDepsTerminal(g, t[a := Skipped], b);
  }

  lemma OneMore(g: Shape, run: seq<Event>, e: Event)
    requires g.Valid()
    ensures Reached(g, run + [e]) == Step(g, Reached(g, run), e)
  {
    assert (run + [e])[..|run|] == run;
  }

  /** A root task with a handler for its failure, and a task to run in any case after both. */
  ghost function Trio(root: string, handler: string, last: string): Shape {
    Shape(map[root := OnSuccess, handler := OnFailure, last := Always],
          map[root := Need(0, 0, 0), handler := Need(0, 0, 0), last := Need(0, 0, 0)],
          map[root := {handler, last}, handler := {last}, last := {}],
          map[root := {}, handler := {root}, last := {root, handler}])
  }

  ghost function RootRun(root: string): seq<Event> {
    [MarkReady] + [Assign(root)] + [Start(root)]
  }

  /** The first scan finds the root alone. */
  lemma RootPromoted(g: Shape, root: string)
    requires g.Valid() && root in g.edges && g.deps[root] == {}
    requires forall x :: x in g.edges && x != root ==> g.deps[x] != {}
    ensures MarkReadyAll(g, Initial(g)) == Initial(g)[root := Ready]
  {
    var s := Initial(g);
    forall x | x in g.edges && x != root
      ensures !AllDepsPassed(g, s, x)
    {
      var p :| p in g.deps[x];
      assert g.Edge(p, x) && s[p] == Pending;
    }
    ScanOf(g, s, root);
  }

  lemma ScanOf(g: Shape, s: States, x: string)
    requires Fits(g, s) && x in s && s[x] == Pending && AllDepsPassed(g, s, x)
    requires forall y :: y in s && y != x ==> !AllDepsPassed(g, s, y)
    ensures MarkReadyAll(g, s) == s[x := Ready]
  {
    hide AllDepsPassed;
  }

  lemma RootSteps(g: Shape, root: string)
    requires g.Valid() && root in g.edges
    ensures var s := Initial(g);
      && Step(g, s[root := Ready], Assign(root)) == s[root := Scheduled]
      && Step(g, s[root := Scheduled], Start(root)) == s[root := Running]
  {
    var s := Initial(g);
    assert s[root := Ready][root := Scheduled] == s[root := Scheduled];
    assert s[root := Scheduled][root := Running] == s[root := Running];
  }

  lemma RootRuns(g: Shape, root: string)
    requires g.Valid() && root in g.edges && g.deps[root] == {}
    requires forall x :: x in g.edges && x != root ==> g.deps[x] != {}
    ensures Reached(g, RootRun(root)) == Initial(g)[root := Running]
  {
    assert Reached(g, []) == Initial(g) && [] + [MarkReady] == [MarkReady];
    assert Step(g, Initial(g), MarkReady) == MarkReadyAll(g, Initial(g));
    RootPromoted(g, root);
    RootSteps(g, root);
    hide Reached, Step, Initial;
    OneMore(g, [], MarkReady);
    OneMore(g, [MarkReady], Assign(root));
    OneMore(g, [MarkReady] + [Assign(root)], Start(root));
  }

  lemma TrioEdges(root: string, handler: string, last: string)
    requires root != handler && root != last && handler != last
    ensures forall p, c :: Trio(root, handler, last).Edge(p, c) <==>
              (p == root && (c == handler || c == last)) || (p == handler && c == last)
  {
  }

  lemma TrioOrdered(root: string, handler: string, last: string)
    requires root != handler && root != last && handler != last
    ensures Topological(Trio(root, handler, last), [root, handler, last])
  {
    var g, order := Trio(root, handler, last), [root, handler, last];
    TrioEdges(root, handler, last);
    assert Elements(order) == {root, handler, last};
    forall i, p | 0 <= i < |order| && g.Edge(p, order[i])
      ensures p in order[..i]
    {
      if p == root {
        assert order[..i][0] == p;
      } else {
        assert order[..i][1] == p;
      }
    }
  }

  lemma TrioValid(root: string, handler: string, last: string)
    requires root != handler && root != last && handler != last
    ensures var g := Trio(root, handler, last);
      && g.Valid() && g.Ids() == {root, handler, last} && Entangled(g, root, handler, last)
  {
    TrioEdges(root, handler, last);
  }

  lemma TrioRuns(root: string, handler: string, last: string)
    requires root != handler && root != last && handler != last
    ensures var g := Trio(root, handler, last);
      && g.Valid() && Reached(g, RootRun(root)) == Waiting(g, root, handler, last)
  {
    var g := Trio(root, handler, last);
    TrioValid(root, handler, last);
    RootRuns(g, root);
    assert Initial(g)[root := Running] == Waiting(g, root, handler, last);
  }

  lemma RootRunLegal(g: Shape, root: string, outcome: TaskState, order: seq<string>)
    requires Legal(g, Complete(root, outcome, order))
    ensures AllLegal(g, RootRun(root) + [Complete(root, outcome, order)])
  {
  }

  /** A reachable state in which the map order decides whether a task that is to run in any
      case is released, or the build comes to rest with that task still Pending. */
  lemma MapOrderShows(root: string, handler: string, last: string)
    requires root != handler && root != last && handler != last
    ensures var g := Trio(root, handler, last);
      && g.Valid() && !Cyclic(g)
      && AllLegal(g, RootRun(root) + [Complete(root, Passed, [handler, last])])
      && AllLegal(g, RootRun(root) + [Complete(root, Passed, [last, handler])])
      && Reached(g, RootRun(root) + [Complete(root, Passed, [handler, last])])[last] == Ready
      && var rest := Reached(g, RootRun(root) + [Complete(root, Passed, [last, handler])]);
         rest[last] == Pending && Quiet(rest)
  {
    hide Trio, Reached, Legal, AllLegal, RootRun, Step, Waiting, Cyclic, Shape.Valid, Entangled, Topological;
    var g := Trio(root, handler, last);
    var first, second := Complete(root, Passed, [handler, last]), Complete(root, Passed, [last, handler]);
    TrioValid(root, handler, last);
    TrioOrdered(root, handler, last);
    TopologicalMeansAcyclic(g, [root, handler, last]);
    TrioRuns(root, handler, last);
    BothLegal(root, handler, last);
    RootRunLegal(g, root, Passed, first.order);
    RootRunLegal(g, root, Passed, second.order);
    BothOrders(g, Reached(g, RootRun(root)), root, handler, last);
    CompleteIs(g, Reached(g, RootRun(root)), first);
    CompleteIs(g, Reached(g, RootRun(root)), second);
    OneMore(g, RootRun(root), first);
    OneMore(g, RootRun(root), second);
    WaitingKeys(g, root, handler, last);
  }

  lemma BothLegal(root: string, handler: string, last: string)
    requires root != handler && root != last && handler != last
    ensures var g := Trio(root, handler, last);
      && Legal(g, Complete(root, Passed, [handler, last])) && Legal(g, Complete(root, Passed, [last, handler]))
      && last in g.policy && g.policy[last] == Always
  {
    assert Elements([handler, last]) == {handler, last} == Elements([last, handler]);
  }

  lemma CompleteIs(g: Shape, s: States, e: Event)
    requires Fits(g, s) && e.Complete?
    ensures Step(g, s, e) == Finish(g, s, e.id, e.outcome, e.order)
  {
  }

  lemma WaitingKeys(g: Shape, root: string, handler: string, last: string)
    requires g.Ids() == {root, handler, last} && root != handler && root != last && handler != last
    ensures Waiting(g, root, handler, last) == map[root := Running, handler := Pending, last := Pending]
  {
  }

  lemma BothOrders(g: Shape, s: States, root: string, handler: string, last: string)
    requires g.Valid() && !Cyclic(g) && Entangled(g, root, handler, last) && g.policy[last] == Always
    requires s == Waiting(g, root, handler, last)
    ensures Finish(g, s, root, Passed, [handler, last])[last] == Ready
    ensures Finish(g, s, root, Passed, [last, handler]) == s[root := Passed][handler := Skipped]
  {
    var t := s[root := Passed];
    EntangledChildren(g, root, handler, last);
    UnlockPair(g, t, handler, last);
    UnlockPair(g, t, last, handler);
  }
}
