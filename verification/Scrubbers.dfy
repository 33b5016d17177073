/** The log scrubber (pkg/secrets/store.go). */
module Scrubbers {
  import opened Texts

  const MASK: string := "***"

  /** Very short values are not scrubbed. */
  predicate Kept(value: string) {
    |value| >= 3
  }

  predicate AllLong(values: seq<string>) {
    forall i :: 0 <= i < |values| ==> Kept(values[i])
  }

  function AllKept(values: seq<string>): (kept: seq<string>)
    ensures forall v :: v in kept <==> v in values && Kept(v)
  {
    if values == [] then []
    else
      var init, v := values[..|values| - 1], values[|values| - 1];
      AllKept(init) + if Kept(v) then [v] else []
  }

  lemma AllKeptLast(values: seq<string>, v: string)
    ensures AllKept(values + [v]) == AllKept(values) + if |v| >= 3 then [v] else []
    ensures AllKept([]) == []
  {
    assert (values + [v])[..|values|] == values;
  }

  /** The long values, in their order, with repetitions. */
  lemma {:induction false} AllKeptInOrder(first: seq<string>, second: seq<string>)
    ensures AllKept(first + second) == AllKept(first) + AllKept(second)
    decreases |second|
  {
    hide AllKept;
    if second == [] {
      assert first + second == first;
      AllKeptLast([], "");
    } else {
      var init, v := second[..|second| - 1], second[|second| - 1];
      AllKeptInOrder(first, init);
      AllKeptLast(first + init, v);
      AllKeptLast(init, v);
      assert first + second == first + init + [v] && second == init + [v];
    }
  }

  /** The text after each value in turn has been masked. */
  function Scrubbed(text: string, values: seq<string>): string
    requires AllLong(values)
  {
    if values == [] then text
    else ReplaceAll(Scrubbed(text, values[..|values| - 1]), values[|values| - 1], MASK)
  }

  class Scrubber {
    var patterns: seq<string>  // what each compiled pattern matches: the value, quoted
    var values: seq<string>

    ghost predicate Valid()
      reads this
    {
      patterns == values && AllLong(values)
    }

    constructor (secretValues: seq<string>)
      ensures Valid() && values == AllKept(secretValues)
      ensures forall v :: v in values <==> v in secretValues && |v| >= 3
    {
      patterns, values := [], [];
      new;
      for i := 0 to |secretValues|
        invariant Valid() && values == AllKept(secretValues[..i])
      {
        var v := secretValues[i];
        assert secretValues[..i + 1][..i] == secretValues[..i];
        if |v| >= 3 {
          values := values + [v];
          patterns := patterns + [v];
        }
      }
      assert secretValues[..|secretValues|] == secretValues;
    }

    method AddValue(value: string)
      requires Valid()
      modifies this
      ensures Valid() && values == if |value| >= 3 then old(values) + [value] else old(values)
    {
      if |value| < 3 {
        return;
      }
      values := values + [value];
      patterns := patterns + [value];
    }

    /** The values are masked in the order in which they were registered, each in the result of the
        one before. */
    ghost predicate InTurn(steps: seq<string>, text: string, result: string)
      reads this
    {
      && |steps| == |values| + 1 && steps[0] == text && steps[|values|] == result
      && forall i :: 0 <= i < |values| ==>
           |values[i]| >= 3 && steps[i + 1] == ReplaceAll(steps[i], values[i], "***")
    }

    method Scrub(text: string) returns (result: string)
      requires Valid()
      ensures result == Scrubbed(text, values)
      ensures exists steps: seq<string> :: InTurn(steps, text, result)
    {
      hide ReplaceAll;
      result := text;
      ghost var steps := [text];
      for i := 0 to |patterns|
        invariant result == Scrubbed(text, values[..i])
        invariant |steps| == i + 1 && steps[0] == text && steps[i] == result
        invariant forall k :: 0 <= k < i ==> |values[k]| >= 3 && steps[k + 1] == ReplaceAll(steps[k], values[k], "***")
      {
        assert values[..i + 1][..i] == values[..i];
        result := ReplaceAll(result, patterns[i], MASK);
        steps := steps + [result];
      }
      assert values[..|values|] == values;
      assert InTurn(steps, text, result);
    }
  }

  /** The mask cannot be mistaken for part of the value. */
  predicate Clean(value: string) {
    value != "" && value[0] != '*' && value[|value| - 1] != '*' && !Occurs(value, MASK)
  }

  lemma CleanIsForeign(value: string)
    requires Kept(value) && Clean(value)
    ensures Foreign(value, MASK)
  {
  }

  /** Values without a star at either end, or three in a row, are gone after scrubbing,
      whatever other values there are, in any order, and however they overlap. */
  lemma {:induction false} NoneLeft(text: string, values: seq<string>, w: string)
    requires AllLong(values)
    requires Kept(w) && Clean(w) && (w in values || !Occurs(text, w))
    ensures !Occurs(Scrubbed(text, values), w)
    decreases |values|
  {
    if values != [] {
      var init, v := values[..|values| - 1], values[|values| - 1];
      CleanIsForeign(w);
      assert values == init + [v];
      if v != w {
        NoneLeft(text, init, w);
      }
      ReplaceRemoves(Scrubbed(text, init), v, MASK, w);
    }
  }

  lemma {:induction false} NothingToScrub(text: string, values: seq<string>)
    requires AllLong(values) && forall v :: v in values ==> !Occurs(text, v)
    ensures Scrubbed(text, values) == text
    decreases |values|
  {
    if values != [] {
      NothingToScrub(text, values[..|values| - 1]);
      NothingToReplace(text, values[|values| - 1], MASK);
    }
  }

  lemma ScrubTwice(text: string, values: seq<string>)
    requires AllLong(values) && forall v :: v in values ==> Clean(v)
    ensures Scrubbed(Scrubbed(text, values), values) == Scrubbed(text, values)
  {
    forall v | v in values
      ensures !Occurs(Scrubbed(text, values), v)
    {
      NoneLeft(text, values, v);
    }
    NothingToScrub(Scrubbed(text, values), values);
  }

  // ----- when a value can survive -----

  /** Within a value that does not start with a star but has one at i, followed by anything, no
      copy of the value starts earlier than the one put at i. */
  lemma NoEarlierCopy(v: string, i: nat, tail: string, k: nat)
    requires v != "" && v[0] != '*' && 0 < i < |v| && v[i] == '*' && k < i
    ensures !StartsAt(v[..i] + v + tail, v, k)
  {
    var s := v[..i] + v + tail;
    StartsAtChars(s, v, k);
    assert s[k] == v[k] && s[k + i] == v[k];
    assert s[k + 0] != v[0] || s[k + i] != v[i];
  }

  lemma MaskAtStar(v: string, i: nat, tail: string)
    requires v != "" && v[0] != '*' && 0 < i < |v| && v[i] == '*' && |tail| < |v|
    ensures ReplaceAll(v[..i] + v + tail, v, MASK) == v[..i] + MASK + tail
  {
    var s := v[..i] + v + tail;
    forall k: nat | k < i
      ensures !StartsAt(s, v, k)
    {
      NoEarlierCopy(v, i, tail, k);
    }
    assert s[i..i + |v|] == v && s[i + |v|..] == tail && s[..i] == v[..i];
    ReplaceFirst(s, v, MASK, i);
  }

  lemma StarFirst(v: string) returns (text: string)
    requires Kept(v) && v[0] == '*'
    ensures Occurs(ReplaceAll(text, v, MASK), v)
  {
    text := v + v[1..];
    assert StartsAt(text, v, 0);
    ReplaceFirst(text, v, MASK, 0);
    var out := ReplaceAll(text, v, MASK);
    assert text[|v|..] == v[1..] && out == MASK + v[1..];
    assert out[2..2 + |v|] == [v[0]] + v[1..] == v;
    assert StartsAt(out, v, 2);
  }

  lemma StarLast(v: string) returns (text: string)
    requires Kept(v) && v[0] != '*' && v[|v| - 1] == '*'
    ensures Occurs(ReplaceAll(text, v, MASK), v)
  {
    var n := |v|;
    text := v[..n - 1] + v + "";
    MaskAtStar(v, n - 1, "");
    var out := ReplaceAll(text, v, MASK);
    assert out[..n] == v[..n - 1] + [v[n - 1]] == v;
    assert StartsAt(out, v, 0);
  }

  lemma StarsInside(v: string, i: nat) returns (text: string)
    requires Kept(v) && v[0] != '*' && StartsAt(v, MASK, i)
    ensures Occurs(ReplaceAll(text, v, MASK), v)
  {
    assert v[i..i + 3][0] == MASK[0];
    text := v[..i] + v + v[i + 3..];
    MaskAtStar(v, i, v[i + 3..]);
    assert v == v[..i] + v[i..i + 3] + v[i + 3..];
    assert StartsAt(ReplaceAll(text, v, MASK), v, 0);
  }

  /** A text in which the value is still found after it has been scrubbed. */
  lemma Survives(v: string) returns (text: string)
    requires Kept(v) && !Clean(v)
    ensures Occurs(ReplaceAll(text, v, MASK), v)
  {
    if v[0] == '*' {
      text := StarFirst(v);
    } else if v[|v| - 1] == '*' {
      text := StarLast(v);
    } else {
      var i: nat :| i <= |v| && StartsAt(v, MASK, i);
      text := StarsInside(v, i);
    }
  }

  /** No text that has been scrubbed contains any of the scrubber's values. */
  ghost predicate Thorough(values: seq<string>)
    requires AllLong(values)
  {
    forall text, v :: v in values ==> !Occurs(Scrubbed(text, values), v)
  }

  /** Exactly the clean values are safe to register, alone or with each other. */
  lemma ThoroughIff(allowed: set<string>)
    requires forall v :: v in allowed ==> Kept(v)
    ensures (forall values: seq<string> ::
               AllLong(values) && (forall v :: v in values ==> v in allowed) ==> Thorough(values))
            <==> forall v :: v in allowed ==> Clean(v)
  {
    if forall v :: v in allowed ==> Clean(v) {
      forall values: seq<string>, text, v | AllLong(values) && (forall v :: v in values ==> v in allowed) && v in values
        ensures !Occurs(Scrubbed(text, values), v)
      {
        NoneLeft(text, values, v);
      }
    } else {
      var v :| v in allowed && !Clean(v);
      var text := Survives(v);
      var values := [v];
      assert values[..0] == [] && v in values && AllLong(values);
      assert Scrubbed(text, values) == ReplaceAll(text, v, MASK);
      assert !Thorough(values);
    }
  }
}
