/** When line i of every log has number i, over all appends and restarts of a log store. */
module LogNumbers {
  import opened LogSpec
  import opened LogReload

  /** The lines are numbered from a place that is not the end of their file. */
  ghost predicate Misplaced(s: State, e: Event) {
    e.Append? && e.batch != [] && |LinesOf(s.logs, e.task)| != |RecordsOf(s.disk, FileName(e.task))|
  }

  ghost predicate MisplacedAt(run: seq<Event>, i: nat) {
    i < |run| && Misplaced(After(run[..i]), run[i])
  }

  ghost predicate SomeMisplaced(run: seq<Event>) {
    exists i: nat :: MisplacedAt(run, i)
  }

  ghost predicate RestartsAt(run: seq<Event>, k: nat) {
    k < |run| && run[k].Restart?
  }

  /** A restart reads back what was misplaced before. */
  ghost predicate Muddled(run: seq<Event>) {
    exists i: nat, k: nat :: i < k && MisplacedAt(run, i) && RestartsAt(run, k)
  }

  /** Line i of every log has number i. */
  ghost predicate AllContiguous(logs: Logs) {
    forall t :: Contiguous(LinesOf(logs, t))
  }

  // ----- files -----

  ghost predicate InPlace(records: seq<Record>) {
    forall i :: 0 <= i < |records| ==> records[i].line == i
  }

  ghost predicate Repeats(records: seq<Record>) {
    exists i, j :: 0 <= i < j < |records| && records[i].line == records[j].line
  }

  /** Every file is in place, and has at least the lines that the store has for its tasks. */
  ghost predicate Orderly(s: State) {
    && (forall name :: InPlace(RecordsOf(s.disk, name)))
    && (forall t :: |LinesOf(s.logs, t)| <= |RecordsOf(s.disk, FileName(t))|)
  }

  ghost predicate Disorderly(s: State) {
    exists name :: name in s.disk && Repeats(s.disk[name])
  }

  lemma RepeatedOnce(lines: seq<Line>, i: nat, j: nat)
    requires i < j < |lines| && lines[i] == lines[j]
    ensures multiset(lines)[lines[i]] >= 2
  {
    var head, tail := lines[..j], lines[j..];
    assert lines == head + tail && head[i] == lines[i] && tail[0] == lines[i];
    assert lines[i] in multiset(head) && lines[i] in multiset(tail);
    assert multiset(lines) == multiset(head) + multiset(tail);
  }

  lemma {:induction false} ContiguousOnce(lines: seq<Line>, l: Line)
    requires Contiguous(lines)
    ensures multiset(lines)[l] <= 1
    decreases |lines|
  {
    if lines != [] {
      var n := |lines| - 1;
      ContiguousOnce(lines[..n], l);
      assert lines == lines[..n] + [lines[n]];
      if l == lines[n] {
        assert l !in lines[..n];
        assert l !in multiset(lines[..n]);
      }
    }
  }

  /** What repeats a number cannot be sorted into contiguous lines. */
  lemma RepeatsStay(records: seq<Record>, sorted: seq<Line>)
    requires Repeats(records) && IsSorting(ToLines(records), sorted)
    ensures !Contiguous(sorted)
  {
    var lines := ToLines(records);
    var i, j :| 0 <= i < j < |records| && records[i].line == records[j].line;
    var a, b := lines[i], lines[j];
    assert a in multiset(lines) && b in multiset(lines);
    assert a in sorted && b in sorted;
    if a == b {
      RepeatedOnce(lines, i, j);
    }
    if Contiguous(sorted) {
      ContiguousOnce(sorted, a);
    }
  }

  lemma InPlaceLines(records: seq<Record>, sorted: seq<Line>)
    requires InPlace(records) && IsSorting(ToLines(records), sorted)
    ensures Contiguous(sorted) && |sorted| == |records|
  {
    ContiguousSorting(ToLines(records), sorted);
  }

  // ----- one event -----

  lemma AppendMisplaced(s: State, e: Event)
    requires e.Append? && Orderly(s) && Misplaced(s, e)
    ensures Disorderly(Appended(s, e.task, e.batch, e.now))
  {
    var u, name := Appended(s, e.task, e.batch, e.now), FileName(e.task);
    var records, kept := RecordsOf(s.disk, name), LinesOf(s.logs, e.task);
    var more := ToRecords(FiledAll(e.batch, e.task, |kept|, e.now));
    var file := u.disk[name];
    assert file == records + more && InPlace(records);
    assert file[|kept|] == records[|kept|] && file[|records|] == more[0];
    assert Repeats(file);
  }

  lemma AppendInPlace(records: seq<Record>, more: seq<Record>)
    requires InPlace(records) && forall i :: 0 <= i < |more| ==> more[i].line == |records| + i
    ensures InPlace(records + more)
  {
  }

  lemma AppendOrderly(s: State, e: Event)
    requires e.Append? && Orderly(s) && !Misplaced(s, e)
    ensures Orderly(Appended(s, e.task, e.batch, e.now))
  {
    hide FileName, InPlace;
    var u, at := Appended(s, e.task, e.batch, e.now), FileName(e.task);
    var records, kept := RecordsOf(s.disk, at), LinesOf(s.logs, e.task);
    var more := ToRecords(FiledAll(e.batch, e.task, |kept|, e.now));
    forall name
      ensures InPlace(RecordsOf(u.disk, name))
    {
      assert InPlace(RecordsOf(s.disk, name));
      if name == at {
        AppendInPlace(records, more);
      }
    }
    forall t
      ensures |LinesOf(u.logs, t)| <= |RecordsOf(u.disk, FileName(t))|
    {
      assert |LinesOf(s.logs, t)| <= |RecordsOf(s.disk, FileName(t))|;
    }
  }

  lemma AppendDisorderly(s: State, e: Event)
    requires e.Append? && Disorderly(s)
    ensures Disorderly(Appended(s, e.task, e.batch, e.now))
  {
    var u := Appended(s, e.task, e.batch, e.now);
    var name :| name in s.disk && Repeats(s.disk[name]);
    var i, j :| 0 <= i < j < |s.disk[name]| && s.disk[name][i].line == s.disk[name][j].line;
    assert u.disk[name][i] == s.disk[name][i] && u.disk[name][j] == s.disk[name][j];
    assert Repeats(u.disk[name]);
  }

  lemma AppendContiguous(s: State, e: Event)
    requires e.Append?
    ensures AllContiguous(Appended(s, e.task, e.batch, e.now).logs) <==> AllContiguous(s.logs)
  {
    var u := Appended(s, e.task, e.batch, e.now);
    forall t
      ensures Contiguous(LinesOf(u.logs, t)) <==> Contiguous(LinesOf(s.logs, t))
    {
      if t == e.task {
        var kept := LinesOf(s.logs, t);
        assert u.logs[t][..|kept|] == kept;
        assert forall i :: 0 <= i < |kept| ==> u.logs[t][i] == kept[i];
      }
    }
  }

  lemma RestartOrderly(s: State, loaded: Logs)
    requires Orderly(s) && IsReload(s.disk, loaded) && forall name :: name in s.disk ==> Safe(name)
    ensures Orderly(s.(logs := loaded)) && AllContiguous(loaded)
  {
    forall t
      ensures Contiguous(LinesOf(loaded, t)) && |LinesOf(loaded, t)| <= |RecordsOf(s.disk, FileName(t))|
    {
      if t in s.disk {
        FileNameSafe(t);
        assert InPlace(RecordsOf(s.disk, t));
        InPlaceLines(s.disk[t], loaded[t]);
      }
    }
  }

  lemma RestartDisorderly(s: State, loaded: Logs)
    requires Disorderly(s) && IsReload(s.disk, loaded)
    ensures !AllContiguous(loaded)
  {
    var name :| name in s.disk && Repeats(s.disk[name]);
    RepeatsStay(s.disk[name], loaded[name]);
    assert !Contiguous(LinesOf(loaded, name));
  }

  // ----- whole runs -----

  lemma AtExtends(run: seq<Event>, e: Event, i: nat)
    ensures MisplacedAt(run + [e], i) <==> MisplacedAt(run, i) || (i == |run| && Misplaced(After(run), e))
    ensures RestartsAt(run + [e], i) <==> RestartsAt(run, i) || (i == |run| && e.Restart?)
  {
    hide After, Misplaced;
    var longer := run + [e];
    assert longer[..|run|] == run && longer[|run|] == e;
    if i < |run| {
      assert longer[..i] == run[..i] && longer[i] == run[i];
    }
  }

  lemma OneMoreEvent(run: seq<Event>, e: Event)
    ensures SomeMisplaced(run + [e]) <==> SomeMisplaced(run) || Misplaced(After(run), e)
    ensures Muddled(run + [e]) <==> Muddled(run) || (SomeMisplaced(run) && e.Restart?)
  {
    forall i: nat
      ensures MisplacedAt(run + [e], i) <==> MisplacedAt(run, i) || (i == |run| && Misplaced(After(run), e))
      ensures RestartsAt(run + [e], i) <==> RestartsAt(run, i) || (i == |run| && e.Restart?)
    {
      AtExtends(run, e, i);
    }
    AtRange(run);
    hide MisplacedAt, RestartsAt, After, Misplaced;
    if i: nat :| MisplacedAt(run, i) {
      assert MisplacedAt(run + [e], i);
      assert e.Restart? ==> RestartsAt(run + [e], |run|);
    }
    if Muddled(run) {
      var i: nat, k: nat :| i < k && MisplacedAt(run, i) && RestartsAt(run, k);
      assert MisplacedAt(run + [e], i) && RestartsAt(run + [e], k);
    }
    if Misplaced(After(run), e) {
      assert MisplacedAt(run + [e], |run|);
    }
  }

  lemma AtRange(run: seq<Event>)
    ensures forall i: nat :: MisplacedAt(run, i) ==> i < |run|
    ensures forall i: nat :: RestartsAt(run, i) ==> i < |run|
  {
  }

  /** A run is orderly or disorderly as its appends were; and it is numbered by places unless it
      is muddled. */
  ghost predicate Kept(run: seq<Event>) {
    && (if SomeMisplaced(run) then Disorderly(After(run)) else Orderly(After(run)))
    && (AllContiguous(After(run).logs) <==> !Muddled(run))
  }

  lemma KeptStep(run: seq<Event>, e: Event)
    requires Kept(run) && (e.Restart? ==> IsReload(After(run).disk, e.loaded))
    ensures Kept(run + [e])
  {
    hide Misplaced, Muddled, SomeMisplaced, Orderly, Disorderly, AllContiguous, Appended, IsReload;
    OneMoreEvent(run, e);
    assert (run + [e])[..|run|] == run;
    var s := After(run);
    match e
    case Append(t, batch, now) =>
      AppendContiguous(s, e);
      if SomeMisplaced(run) {
        AppendDisorderly(s, e);
      } else {
        if Misplaced(s, e) {
          AppendMisplaced(s, e);
        } else {
          AppendOrderly(s, e);
        }
      }
    case Restart(loaded) =>
      FilesAreSafe(run);
      MuddledFirst(run);
      if SomeMisplaced(run) {
        RestartDisorderly(s, loaded);
        StillDisorderly(s, loaded);
      } else {
        RestartOrderly(s, loaded);
      }
  }

  lemma StillDisorderly(s: State, loaded: Logs)
    requires Disorderly(s)
    ensures Disorderly(s.(logs := loaded))
  {
  }

  lemma MuddledFirst(run: seq<Event>)
    ensures Muddled(run) ==> SomeMisplaced(run)
    ensures forall s, e: Event :: e.Restart? ==> !Misplaced(s, e)
  {
    hide MisplacedAt, RestartsAt;
  }

  lemma {:induction false} RunKept(run: seq<Event>)
    requires Legal(run)
    ensures Kept(run)
    decreases |run|
  {
    if run == [] {
      assert After(run) == State(map[], map[]);
    } else {
      var init, e := run[..|run| - 1], run[|run| - 1];
      assert run == init + [e];
      assert forall i :: 0 <= i < |init| ==> run[..i] == init[..i];
      RunKept(init);
      hide Kept;
      KeptStep(init, e);
    }
  }

  /** Line i of every log has number i exactly if no append whose lines were numbered from a place
      that is not the end of their file has been followed by a restart. */
  lemma NumberedIff(run: seq<Event>)
    requires Legal(run)
    ensures AllContiguous(After(run).logs) <==> !Muddled(run)
  {
    hide Muddled, Orderly, Disorderly, SomeMisplaced, After, LinesOf, Contiguous, Legal;
    RunKept(run);
  }

  /** So it has while the store is not restarted, whatever the task ids. */
  lemma NumberedWithoutRestart(run: seq<Event>, t: string)
    requires forall k :: 0 <= k < |run| ==> run[k].Append?
    ensures Contiguous(LinesOf(After(run).logs, t))
  {
    assert !Muddled(run) by {
      assert forall k: nat :: !RestartsAt(run, k);
    }
    NumberedIff(run);
  }

  /** And over any restarts, if every line is for a task with a safe id. */
  lemma NumberedWhenSafe(run: seq<Event>, t: string)
    requires Legal(run) && OnlySafe(run)
    ensures Contiguous(LinesOf(After(run).logs, t))
  {
    StaysInStep(run, t);
  }
}
