/** Searching and replacing in text. A character stands for one byte. */
module Texts {

  predicate StartsAt(s: string, v: string, i: nat) {
    i + |v| <= |s| && s[i..i + |v|] == v
  }

  predicate Occurs(s: string, v: string) {
    exists i: nat | i <= |s| :: StartsAt(s, v, i)
  }

  /** Every occurrence replaced, from the left, without overlaps. */
  function ReplaceAll(s: string, v: string, mark: string): string
    requires v != ""
  {
    if |s| < |v| then s
    else if s[..|v|] == v then mark + ReplaceAll(s[|v|..], v, mark)
    else [s[0]] + ReplaceAll(s[1..], v, mark)
  }

  lemma StartsAtChars(s: string, v: string, i: nat)
    ensures StartsAt(s, v, i) <==> i + |v| <= |s| && forall k :: 0 <= k < |v| ==> s[i + k] == v[k]
  {
  }

  lemma StartsAtTail(s: string, v: string, n: nat, i: nat)
    requires n <= |s|
    ensures StartsAt(s[n..], v, i) <==> StartsAt(s, v, n + i)
  {
    StartsAtChars(s[n..], v, i);
    StartsAtChars(s, v, n + i);
  }

  /** What does not occur is not replaced. */
  lemma {:induction false} NothingToReplace(s: string, v: string, mark: string)
    requires v != "" && !Occurs(s, v)
    ensures ReplaceAll(s, v, mark) == s
    decreases |s|
  {
    if |s| >= |v| {
      assert !StartsAt(s, v, 0);
      forall i: nat | i <= |s| - 1
        ensures !StartsAt(s[1..], v, i)
      {
        StartsAtTail(s, v, 1, i);
      }
      NothingToReplace(s[1..], v, mark);
    }
  }

  lemma Shift(s: string, i: nat, mark: string, rest: string)
    requires 0 < i <= |s|
    ensures [s[0]] + (s[1..][..i - 1] + mark + rest) == s[..i] + mark + rest
  {
    assert [s[0]] + s[1..][..i - 1] == s[..i];
  }

  lemma ReplaceSkip(s: string, v: string, mark: string)
    requires v != "" && s != "" && !StartsAt(s, v, 0)
    ensures ReplaceAll(s, v, mark) == [s[0]] + ReplaceAll(s[1..], v, mark)
  {
  }

  lemma ReplaceShort(s: string, v: string, mark: string)
    requires |s| < |v|
    ensures ReplaceAll(s, v, mark) == s
  {
  }

  lemma ReplaceHere(s: string, v: string, mark: string)
    requires v != "" && StartsAt(s, v, 0)
    ensures ReplaceAll(s, v, mark) == mark + ReplaceAll(s[|v|..], v, mark)
  {
  }

  /** The text without its first character starts later, and has its first occurrence earlier. */
  lemma FirstInTail(s: string, v: string, i: nat)
    requires 0 < i && StartsAt(s, v, i) && forall k: nat :: k < i ==> !StartsAt(s, v, k)
    ensures s != "" && StartsAt(s[1..], v, i - 1)
    ensures forall k: nat :: k < i - 1 ==> !StartsAt(s[1..], v, k)
  {
    StartsAtTail(s, v, 1, i - 1);
    forall k: nat | k < i - 1
      ensures !StartsAt(s[1..], v, k)
    {
      StartsAtTail(s, v, 1, k);
    }
  }

  /** The first occurrence is replaced, and then the rest. */
  lemma {:induction false} ReplaceFirst(s: string, v: string, mark: string, i: nat)
    requires v != "" && StartsAt(s, v, i)
    requires forall k: nat :: k < i ==> !StartsAt(s, v, k)
    ensures i + |v| <= |s|
    ensures ReplaceAll(s, v, mark) == s[..i] + mark + ReplaceAll(s[i + |v|..], v, mark)
    decreases i
  {
    StartsAtChars(s, v, i);
    hide ReplaceAll, StartsAt;
    if i == 0 {
      ReplaceHere(s, v, mark);
      assert s[..0] + mark == mark;
    } else {
      FirstInTail(s, v, i);
      ReplaceSkip(s, v, mark);
      ReplaceFirst(s[1..], v, mark, i - 1);
      assert s[1..][i - 1 + |v|..] == s[i + |v|..];
      Shift(s, i, mark, ReplaceAll(s[i + |v|..], v, mark));
    }
  }

  // ----- where an occurrence in the result comes from -----

  /** No occurrence of the word can touch a replacement: it neither starts nor ends with one of
      its characters, nor contains all of it. */
  predicate Foreign(w: string, mark: string) {
    w != "" && w[0] !in mark && w[|w| - 1] !in mark && !Occurs(w, mark)
  }

  lemma NoPrefixOfMark(out: string, mark: string, w: string)
    requires mark != "" && w != "" && w[|w| - 1] !in mark && !Occurs(w, mark) && mark <= out
    ensures !StartsAt(out, w, 0)
  {
    if |w| <= |mark| {
      assert out[|w| - 1] == mark[|w| - 1];
      StartsAtChars(out, w, 0);
      assert out[0 + (|w| - 1)] != w[|w| - 1];
    } else if |w| <= |out| {
      assert !StartsAt(w, mark, 0);
      assert w[..|mark|] != mark && out[..|w|][..|mark|] == mark;
    }
  }

  lemma NoStartInMark(out: string, mark: string, w: string, i: nat)
    requires w != "" && w[0] !in mark && mark <= out && i < |mark|
    ensures !StartsAt(out, w, i)
  {
    StartsAtChars(out, w, i);
    assert out[i + 0] == mark[i];
  }

  /** A prefix of the result that no replacement can touch is a prefix of the original. */
  lemma {:induction false} PrefixOrigin(s: string, v: string, mark: string, w: string)
    requires v != "" && mark != ""
    requires w != "" ==> w[|w| - 1] !in mark
    requires !Occurs(w, mark) && StartsAt(ReplaceAll(s, v, mark), w, 0)
    ensures StartsAt(s, w, 0)
    decreases |s|
  {
    var out := ReplaceAll(s, v, mark);
    if w == "" || |s| < |v| {
    } else if s[..|v|] == v {
      NoPrefixOfMark(out, mark, w);
      assert false;
    } else {
      assert w[0] == out[0] == s[0];
      forall i: nat | i <= |w| - 1
        ensures !StartsAt(w[1..], mark, i)
      {
        StartsAtTail(w, mark, 1, i);
      }
      StartsAtChars(out, w, 0);
      assert out[1..] == ReplaceAll(s[1..], v, mark);
      StartsAtChars(out[1..], w[1..], 0);
      PrefixOrigin(s[1..], v, mark, w[1..]);
      assert s == [s[0]] + s[1..] && w == [w[0]] + w[1..];
    }
  }

  /** An occurrence in the result of a word that no replacement can touch was there before; if it
      is the word that was replaced, there is none. */
  lemma {:induction false} OccurrenceOrigin(s: string, v: string, mark: string, w: string, i: nat) returns (j: nat)
    requires v != "" && mark != "" && Foreign(w, mark) && StartsAt(ReplaceAll(s, v, mark), w, i)
    ensures w != v && StartsAt(s, w, j)
    decreases |s|
  {
    hide ReplaceAll;
    var out := ReplaceAll(s, v, mark);
    if |s| < |v| {
      ReplaceShort(s, v, mark);
      j := i;
    } else if s[..|v|] == v {
      ReplaceHere(s, v, mark);
      if i < |mark| {
        NoStartInMark(out, mark, w, i);
        assert false;
      }
      var rest := s[|v|..];
      StartsAtTail(out, w, |mark|, i - |mark|);
      var k := OccurrenceOrigin(rest, v, mark, w, i - |mark|);
      StartsAtTail(s, w, |v|, k);
      j := |v| + k;
    } else if i == 0 {
      PrefixOrigin(s, v, mark, w);
      j := 0;
    } else {
      ReplaceSkip(s, v, mark);
      StartsAtTail(out, w, 1, i - 1);
      var k := OccurrenceOrigin(s[1..], v, mark, w, i - 1);
      StartsAtTail(s, w, 1, k);
      j := k + 1;
    }
  }

  /** Replacing brings in no foreign word, and leaves no foreign word that it replaces. */
  lemma ReplaceRemoves(s: string, v: string, mark: string, w: string)
    requires v != "" && mark != "" && Foreign(w, mark) && (w == v || !Occurs(s, w))
    ensures !Occurs(ReplaceAll(s, v, mark), w)
  {
    if i: nat :| i <= |ReplaceAll(s, v, mark)| && StartsAt(ReplaceAll(s, v, mark), w, i) {
      var j := OccurrenceOrigin(s, v, mark, w, i);
      assert false;
    }
  }
}
