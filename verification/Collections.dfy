/** Facts about sequences, sets and maps that the other modules share. */
module Collections {

  datatype Option<+T> = None | Some(value: T)

  /** The elements of a sequence. */
  function Elements<T>(s: seq<T>): set<T> {
    set x | x in s
  }

  ghost predicate Distinct<T>(s: seq<T>) {
    forall i, j :: 0 <= i < j < |s| ==> s[i] != s[j]
  }

  /** A listing of a set, in some order: what ranging over a Go map yields. */
  ghost predicate IsListing<T>(s: seq<T>, elements: set<T>) {
    Distinct(s) && Elements(s) == elements
  }

  lemma ListingExtends<T>(s: seq<T>, elements: set<T>, x: T)
    requires IsListing(s, elements) && x !in elements
    ensures IsListing(s + [x], elements + {x})
  {
    assert forall i :: 0 <= i < |s| ==> s[i] in Elements(s);
  }

  lemma ListingConcat<T>(a: seq<T>, left: set<T>, b: seq<T>, right: set<T>)
    requires IsListing(a, left) && IsListing(b, right) && left !! right
    ensures IsListing(a + b, left + right)
  {
    assert forall x :: x in a <==> x in Elements(a);
    assert forall x :: x in b <==> x in Elements(b);
    var s := a + b;
    assert forall x :: x in s <==> x in a || x in b;
    assert Elements(s) == left + right;
    forall i, j | 0 <= i < j < |s|
      ensures s[i] != s[j]
    {
      if i < |a| <= j {
        assert s[i] in a && s[j] in b;
      }
    }
  }

  /** Every finite set can be listed. */
  lemma {:induction false} SomeListing<T>(elements: set<T>) returns (s: seq<T>)
    ensures IsListing(s, elements)
    decreases |elements|
  {
    s := [];
    if elements != {} {
      var x :| x in elements;
      s := SomeListing(elements - {x});
      ListingExtends(s, elements - {x}, x);
      assert elements - {x} + {x} == elements;
      s := s + [x];
    }
  }

  lemma {:induction false} DistinctLength<T>(s: seq<T>)
    requires Distinct(s)
    ensures |Elements(s)| == |s|
  {
    if s != [] {
      var init := s[..|s| - 1];
      DistinctLength(init);
      assert Elements(s) == Elements(init) + {s[|s| - 1]};
      assert s[|s| - 1] !in init;
    }
  }

  lemma SubsetSize<T>(a: set<T>, b: set<T>)
    requires a <= b
    ensures |a| <= |b|
  {
    assert b == a + (b - a);
  }

  /** A sequence longer than the set it is drawn from repeats an element. */
  lemma Pigeonhole<T>(s: seq<T>, elements: set<T>) returns (i: nat, j: nat)
    requires Elements(s) <= elements && |s| > |elements|
    ensures i < j < |s| && s[i] == s[j]
  {
    if Distinct(s) {
      DistinctLength(s);
      SubsetSize(Elements(s), elements);
      assert false;
    }
    i, j :| 0 <= i < j < |s| && s[i] == s[j];
  }

  /** The sum of the values of a map. */
  ghost function Total<K(!new)>(m: map<K, int>): int
    decreases |m|
  {
    if m == map[] then 0
    else
      var k :| k in m;
      m[k] + Total(m - {k})
  }

  lemma {:induction false} TotalRemove<K(!new)>(m: map<K, int>, k: K)
    requires k in m
    ensures Total(m) == m[k] + Total(m - {k})
    decreases |m|
  {
    var j :| j in m && Total(m) == m[j] + Total(m - {j});
    if j != k {
      TotalRemove(m - {j}, k);
      TotalRemove(m - {k}, j);
      assert m - {j} - {k} == m - {k} - {j};
    }
  }

  lemma TotalUpdate<K(!new)>(m: map<K, int>, k: K, v: int)
    ensures Total(m[k := v]) == Total(m) + v - (if k in m then m[k] else 0)
  {
    var n := m[k := v];
    TotalRemove(n, k);
    assert n - {k} == m - {k};
    if k in m {
      TotalRemove(m, k);
    } else {
      assert m - {k} == m;
    }
  }

  lemma SizeWithout<K, V>(m: map<K, V>, k: K)
    requires k in m
    ensures |m| == |m - {k}| + 1
  {
    assert (m - {k}).Keys == m.Keys - {k} && |m| == |m.Keys|;
  }

  lemma Distribute(a: int, n: int)
    ensures a * (n + 1) == a * n + a
  {
  }

  lemma {:induction false} TotalBounds<K(!new)>(m: map<K, int>, bound: int)
    requires forall k :: k in m ==> 0 <= m[k] <= bound
    ensures 0 <= Total(m) <= bound * |m|
    decreases |m|
  {
    if m != map[] {
      var k :| k in m && Total(m) == m[k] + Total(m - {k});
      SizeWithout(m, k);
      TotalBounds(m - {k}, bound);
      Distribute(bound, |m - {k}|);
    }
  }

  /** What a loop over a set has dealt with, and what is left. */
  ghost predicate Split<T>(all: set<T>, done: set<T>, todo: set<T>) {
    all == done + todo && done !! todo
  }

  lemma SplitStart<T>(all: set<T>)
    ensures Split(all, {}, all)
  {
  }

  lemma SplitPick<T>(all: set<T>, done: set<T>, todo: set<T>, x: T)
    requires Split(all, done, todo) && x in todo
    ensures x in all && x !in done
  {
  }

  lemma SplitMoves<T>(all: set<T>, done: set<T>, todo: set<T>, x: T)
    requires Split(all, done, todo) && x in todo
    ensures Split(all, done + {x}, todo - {x})
  {
  }

  lemma SplitEnd<T>(all: set<T>, done: set<T>)
    requires Split(all, done, {})
    ensures done == all
  {
  }
}
