/** When a log store that is restarted has all its lines again. */
module LogReload {
  import opened LogSpec

  datatype State = State(logs: Logs, disk: Disk)

  datatype Event =
    | Append(task: string, batch: seq<Line>, now: int)
    | Restart(loaded: Logs)

  function Appended(s: State, t: string, batch: seq<Line>, now: int): State {
    var kept := LinesOf(s.logs, t);
    var more := FiledAll(batch, t, |kept|, now);
    State(s.logs[t := kept + more],
          s.disk[FileName(t) := RecordsOf(s.disk, FileName(t)) + ToRecords(more)])
  }

  function After(run: seq<Event>): State {
    if run == [] then State(map[], map[])
    else
      var s, e := After(run[..|run| - 1]), run[|run| - 1];
      match e
      case Append(t, batch, now) => Appended(s, t, batch, now)
      case Restart(loaded) => s.(logs := loaded)
  }

  /** What is loaded is what is on disk at that moment. */
  ghost predicate Legal(run: seq<Event>) {
    forall i :: 0 <= i < |run| && run[i].Restart? ==> IsReload(After(run[..i]).disk, run[i].loaded)
  }

  /** The lines that were ever appended for a task, as the store is to keep them. */
  function Expected(run: seq<Event>, t: string): seq<Line> {
    if run == [] then []
    else
      var lines, e := Expected(run[..|run| - 1], t), run[|run| - 1];
      if e.Append? && e.task == t then lines + FiledAll(e.batch, t, |lines|, e.now) else lines
  }

  /** What was written for a task: the texts and streams of the lines handed in, batch by batch. */
  function Written(run: seq<Event>, t: string): seq<(string, int)> {
    if run == [] then []
    else
      var init, e := run[..|run| - 1], run[|run| - 1];
      if e.Append? && e.task == t
      then Written(init, t) + seq(|e.batch|, i requires 0 <= i < |e.batch| => (e.batch[i].content, e.batch[i].stream))
      else Written(init, t)
  }

  /** The expected lines are the written ones, numbered by their places. */
  lemma {:induction false} ExpectedIsWritten(run: seq<Event>, t: string)
    ensures |Expected(run, t)| == |Written(run, t)|
    ensures forall i :: 0 <= i < |Expected(run, t)| ==>
              var l := Expected(run, t)[i];
              l.taskID == t && l.number == i && (l.content, l.stream) == Written(run, t)[i] && l.timestamp.Some?
    decreases |run|
  {
    if run != [] {
      ExpectedIsWritten(run[..|run| - 1], t);
    }
  }

  /** Every line that is appended is for a task whose id is its own file name. */
  predicate OnlySafe(run: seq<Event>) {
    forall i :: 0 <= i < |run| && run[i].Append? && run[i].batch != [] ==> Safe(run[i].task)
  }

  /** The store and the file of every task have the lines that were appended. */
  ghost predicate InStep(run: seq<Event>, t: string) {
    var lines := Expected(run, t);
    && Contiguous(lines) && (forall i :: 0 <= i < |lines| ==> lines[i].timestamp.Some?)
    && (lines != [] ==> Safe(t))
    && LinesOf(After(run).logs, t) == lines
    && (Safe(t) ==> RecordsOf(After(run).disk, t) == ToRecords(lines))
  }

  /** A legal run goes on with an append, or with a restart that reads what is on disk. */
  lemma RunGoesOn(run: seq<Event>, e: Event)
    requires Legal(run) && (e.Restart? ==> IsReload(After(run).disk, e.loaded))
    ensures Legal(run + [e])
    ensures After(run + [e]) ==
      if e.Append? then Appended(After(run), e.task, e.batch, e.now) else After(run).(logs := e.loaded)
  {
    hide IsReload, Appended;
    var longer := run + [e];
    assert longer[..|run|] == run;
    forall i | 0 <= i < |longer| && longer[i].Restart?
      ensures IsReload(After(longer[..i]).disk, longer[i].loaded)
    {
      if i < |run| {
        assert longer[..i] == run[..i] && longer[i] == run[i];
      }
    }
  }

  lemma BackAndForth(lines: seq<Line>)
    requires forall i :: 0 <= i < |lines| ==> lines[i].timestamp.Some?
    ensures ToLines(ToRecords(lines)) == lines
  {
  }

  /** What one append does to the lines and to the records of a task. */
  lemma AppendedLines(run: seq<Event>, e: Event, t: string)
    requires e.Append?
    ensures var kept, more := LinesOf(After(run).logs, t), FiledAll(e.batch, t, |LinesOf(After(run).logs, t)|, e.now);
      LinesOf(After(run + [e]).logs, t) == if t == e.task then kept + more else kept
    ensures var more := FiledAll(e.batch, e.task, |LinesOf(After(run).logs, e.task)|, e.now);
      RecordsOf(After(run + [e]).disk, t) ==
        if t == FileName(e.task) then RecordsOf(After(run).disk, t) + ToRecords(more) else RecordsOf(After(run).disk, t)
    ensures Expected(run + [e], t) ==
      if t == e.task then Expected(run, t) + FiledAll(e.batch, t, |Expected(run, t)|, e.now) else Expected(run, t)
  {
    assert (run + [e])[..|run|] == run;
  }

  lemma AppendInStep(run: seq<Event>, e: Event, t: string)
    requires e.Append? && (e.batch != [] ==> Safe(e.task))
    requires InStep(run, t) && InStep(run, e.task)
    ensures InStep(run + [e], t)
  {
    hide After, Expected, Safe, FileName;
    AppendedLines(run, e, t);
    FileNameSafe(e.task);
    var kept := Expected(run, e.task);
    var more := FiledAll(e.batch, e.task, |kept|, e.now);
    assert ToRecords(kept + more) == ToRecords(kept) + ToRecords(more);
    if e.batch == [] {
      assert more == [] && ToRecords(more) == [];
    }
  }

  lemma RestartInStep(run: seq<Event>, e: Event, t: string)
    requires e.Restart? && IsReload(After(run).disk, e.loaded) && InStep(run, t)
    requires forall name :: name in After(run).disk ==> Safe(name)
    ensures InStep(run + [e], t)
  {
    assert (run + [e])[..|run|] == run;
    var lines, disk := Expected(run, t), After(run).disk;
    if t in disk {
      BackAndForth(lines);
      assert IsSorting(lines, e.loaded[t]);
      ContiguousSorting(lines, e.loaded[t]);
    }
  }

  lemma {:induction false} FilesAreSafe(run: seq<Event>)
    ensures forall name :: name in After(run).disk ==> Safe(name)
  {
    if run != [] {
      FilesAreSafe(run[..|run| - 1]);
      if run[|run| - 1].Append? {
        FileNameSafe(run[|run| - 1].task);
      }
    }
  }

  lemma {:induction false} StaysInStep(run: seq<Event>, t: string)
    requires Legal(run) && OnlySafe(run)
    ensures InStep(run, t)
    decreases |run|
  {
    if run != [] {
      var init, e := run[..|run| - 1], run[|run| - 1];
      assert run == init + [e];
      assert forall i :: 0 <= i < |init| ==> run[..i] == init[..i];
      StaysInStep(init, t);
      if e.Append? {
        StaysInStep(init, e.task);
        AppendInStep(init, e, t);
      } else {
        FilesAreSafe(init);
        RestartInStep(init, e, t);
      }
    }
  }

  lemma {:induction false} UnsafeLines(run: seq<Event>) returns (t: string)
    requires !OnlySafe(run)
    ensures !Safe(t) && Expected(run, t) != []
    decreases |run|
  {
    var init, e := run[..|run| - 1], run[|run| - 1];
    if e.Append? && e.batch != [] && !Safe(e.task) {
      t := e.task;
    } else {
      t := UnsafeLines(init);
    }
  }

  /** After a restart every log has, in order, what was written for its task, if no task id is unsafe. */
  lemma ReloadedTexts(run: seq<Event>, t: string)
    requires Legal(run) && OnlySafe(run) && run != [] && run[|run| - 1].Restart?
    ensures var log := LinesOf(After(run).logs, t);
      && |log| == |Written(run, t)|
      && forall i :: 0 <= i < |log| ==>
           log[i].taskID == t && log[i].number == i && (log[i].content, log[i].stream) == Written(run, t)[i]
  {
    ReloadIff(run);
    ExpectedIsWritten(run, t);
    hide Expected, After, Written, OnlySafe, Legal;
  }

  /** After any appends and any restarts, a store that has just started up has exactly the lines
      that were ever appended, for every task, with contiguous numbers; this holds exactly if
      no line was for a task with a slash or two dots in a row in its id. */
  lemma ReloadIff(run: seq<Event>)
    requires Legal(run) && run != [] && run[|run| - 1].Restart?
    ensures (forall t :: LinesOf(After(run).logs, t) == Expected(run, t)) <==> OnlySafe(run)
    ensures OnlySafe(run) ==> forall t :: Contiguous(Expected(run, t))
  {
    if OnlySafe(run) {
      forall t
        ensures LinesOf(After(run).logs, t) == Expected(run, t) && Contiguous(Expected(run, t))
      {
        StaysInStep(run, t);
      }
    } else {
      var t := UnsafeLines(run);
      FilesAreSafe(run[..|run| - 1]);
      assert t !in After(run).logs;
    }
  }
}
