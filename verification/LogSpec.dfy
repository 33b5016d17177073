/** Log lines, their numbering, and their records on disk (pkg/logstore), on values. */
module LogSpec {
  import opened Collections
  import opened Texts

  /** A line as it is handed in has no time of its own, as a rule. */
  datatype Line = Line(taskID: string, number: int, timestamp: Option<int>, content: string, stream: int)

  type Logs = map<string, seq<Line>>

  function LinesOf(logs: Logs, t: string): seq<Line> {
    if t in logs then logs[t] else []
  }

  /** A line as the store keeps it: with its task, its position in the log, and a time. */
  function Filed(l: Line, t: string, number: int, now: int): Line {
    Line(t, number, if l.timestamp.None? then Some(now) else l.timestamp, l.content, l.stream)
  }

  /** A batch that is appended to a log with so many lines. */
  function FiledAll(batch: seq<Line>, t: string, first: nat, now: int): (filed: seq<Line>)
    ensures |filed| == |batch|
    ensures forall i :: 0 <= i < |batch| ==> filed[i] == Filed(batch[i], t, first + i, now)
  {
    seq(|batch|, i requires 0 <= i < |batch| => Filed(batch[i], t, first + i, now))
  }

  /** Line i of a log has number i. */
  ghost predicate Contiguous(lines: seq<Line>) {
    forall i :: 0 <= i < |lines| ==> lines[i].number == i
  }

  // ----- records on disk -----

  datatype Record = Record(taskID: string, line: int, ts: int, content: string, stream: int)

  type Disk = map<string, seq<Record>>  // the files, by name without the ".jsonl"

  function RecordsOf(disk: Disk, name: string): seq<Record> {
    if name in disk then disk[name] else []
  }

  function ToRecord(l: Line): Record {
    Record(l.taskID, l.number, if l.timestamp.Some? then l.timestamp.value else 0, l.content, l.stream)
  }

  function ToLine(r: Record): Line {
    Line(r.taskID, r.line, Some(r.ts), r.content, r.stream)
  }

  function ToRecords(lines: seq<Line>): (records: seq<Record>)
    ensures |records| == |lines| && forall i :: 0 <= i < |lines| ==> records[i] == ToRecord(lines[i])
  {
    seq(|lines|, i requires 0 <= i < |lines| => ToRecord(lines[i]))
  }

  function ToLines(records: seq<Record>): (lines: seq<Line>)
    ensures |lines| == |records| && forall i :: 0 <= i < |records| ==> lines[i] == ToLine(records[i])
  {
    seq(|records|, i requires 0 <= i < |records| => ToLine(records[i]))
  }

  /** The name of a task's file. */
  function FileName(t: string): string {
    ReplaceAll(ReplaceAll(t, "/", "_"), "..", "_")
  }

  predicate Safe(t: string) {
    !Occurs(t, "/") && !Occurs(t, "..")
  }

  lemma ForeignToUnderscore(w: string)
    requires w != "" && '_' !in w
    ensures Foreign(w, "_")
  {
    forall i: nat | i <= |w|
      ensures !StartsAt(w, "_", i)
    {
      if i < |w| {
        assert w[i] in w && w[i..i + 1][0] != "_"[0];
      }
    }
  }

  /** A file name is always safe, and only a safe task id is its own file name. */
  lemma FileNameSafe(t: string)
    ensures Safe(FileName(t))
    ensures Safe(t) <==> FileName(t) == t
  {
    var slashed := ReplaceAll(t, "/", "_");
    ForeignToUnderscore("/");
    ForeignToUnderscore("..");
    ReplaceRemoves(t, "/", "_", "/");
    ReplaceRemoves(slashed, "..", "_", "/");
    ReplaceRemoves(slashed, "..", "_", "..");
    if Safe(t) {
      NothingToReplace(t, "/", "_");
      NothingToReplace(t, "..", "_");
    }
  }

  lemma {:induction false} SlashesReplaced(t: string)
    ensures var name := ReplaceAll(t, "/", "_");
      |name| == |t| && forall i :: 0 <= i < |t| ==> name[i] == if t[i] == '/' then '_' else t[i]
    decreases |t|
  {
    if t != [] {
      SlashesReplaced(t[1..]);
      assert t[..1] == [t[0]] && "/"[0] == '/';
    }
  }

  /** Without two dots in a row, a file name is the task id with an underscore for each slash. */
  lemma FileNameSlashes(t: string)
    requires !Occurs(t, "..")
    ensures |FileName(t)| == |t| && forall i :: 0 <= i < |t| ==> FileName(t)[i] == if t[i] == '/' then '_' else t[i]
  {
    SlashesReplaced(t);
    var name := ReplaceAll(t, "/", "_");
    forall i: nat | i <= |name|
      ensures !StartsAt(name, "..", i)
    {
      StartsAtChars(name, "..", i);
      StartsAtChars(t, "..", i);
    }
    NothingToReplace(name, "..", "_");
  }

  /** Without slashes, the first two dots in a row become an underscore, and then the rest. */
  lemma FileNameDots(t: string, i: nat)
    requires !Occurs(t, "/") && StartsAt(t, "..", i) && forall k: nat :: k < i ==> !StartsAt(t, "..", k)
    ensures FileName(t) == t[..i] + "_" + FileName(t[i + 2..])
  {
    NothingToReplace(t, "/", "_");
    var rest := t[i + 2..];
    forall k: nat | k <= |rest|
      ensures !StartsAt(rest, "/", k)
    {
      StartsAtTail(t, "/", i + 2, k);
    }
    NothingToReplace(rest, "/", "_");
    ReplaceFirst(t, "..", "_", i);
  }

  // ----- sorting -----

  ghost predicate InOrder(lines: seq<Line>) {
    forall i, j :: 0 <= i < j < |lines| ==> lines[i].number <= lines[j].number
  }

  /** What sorting by line number may leave: sort.Slice does not keep equal numbers in place. */
  ghost predicate IsSorting(lines: seq<Line>, sorted: seq<Line>) {
    InOrder(sorted) && multiset(sorted) == multiset(lines)
  }

  /** The line with the greatest number comes last in any sorting. */
  lemma GreatestLast(lines: seq<Line>, sorted: seq<Line>)
    requires Contiguous(lines) && IsSorting(lines, sorted) && lines != []
    ensures |sorted| == |lines| && sorted[|lines| - 1] == lines[|lines| - 1]
  {
    assert |multiset(sorted)| == |sorted| && |multiset(lines)| == |lines|;
    var n := |lines| - 1;
    var last, top := lines[n], sorted[n];
    assert last in multiset(lines) && top in multiset(sorted);
    assert last in sorted && top in lines;
    var i :| 0 <= i < |sorted| && sorted[i] == last;
    var j :| 0 <= j < |lines| && lines[j] == top;
  }

  lemma MultisetInit(s: seq<Line>)
    requires s != []
    ensures multiset(s[..|s| - 1]) == multiset(s) - multiset{s[|s| - 1]}
  {
    assert s == s[..|s| - 1] + [s[|s| - 1]];
  }

  lemma NothingSorted(sorted: seq<Line>)
    requires IsSorting([], sorted)
    ensures sorted == []
  {
    assert |multiset(sorted)| == |sorted|;
  }

  lemma WithoutLast(lines: seq<Line>, sorted: seq<Line>)
    requires Contiguous(lines) && IsSorting(lines, sorted) && lines != [] && sorted != []
    requires sorted[|sorted| - 1] == lines[|lines| - 1]
    ensures Contiguous(lines[..|lines| - 1]) && IsSorting(lines[..|lines| - 1], sorted[..|sorted| - 1])
  {
    MultisetInit(lines);
    MultisetInit(sorted);
  }

  /** Contiguous lines can only be sorted into themselves. */
  lemma {:induction false} ContiguousSorting(lines: seq<Line>, sorted: seq<Line>)
    requires Contiguous(lines) && IsSorting(lines, sorted)
    ensures sorted == lines
    decreases |lines|
  {
    hide Contiguous, IsSorting;
    if lines == [] {
      NothingSorted(sorted);
    } else {
      GreatestLast(lines, sorted);
      WithoutLast(lines, sorted);
      ContiguousSorting(lines[..|lines| - 1], sorted[..|sorted| - 1]);
      assert lines == lines[..|lines| - 1] + [lines[|lines| - 1]];
      assert sorted == sorted[..|sorted| - 1] + [sorted[|sorted| - 1]];
    }
  }

  /** What a store that starts up reads from the files. */
  ghost predicate IsReload(disk: Disk, logs: Logs) {
    logs.Keys == disk.Keys && forall name :: name in disk ==> IsSorting(ToLines(disk[name]), logs[name])
  }
}
