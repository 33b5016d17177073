/** The log store and its file backend (pkg/logstore/store.go, pkg/logstore/file.go). */
module LogStores {
  import opened Collections
  import opened LogSpec
  import LogReload

  /** The lines at the given places, all of which lie within the given stretch of the log. */
  ghost predicate Excerpt(lines: seq<Line>, picks: seq<nat>, log: seq<Line>, from: nat, upto: nat) {
    && |lines| == |picks| && upto <= |log|
    && (forall i :: 0 <= i < |picks| ==> from <= picks[i] < upto && lines[i] == log[picks[i]])
    && forall i, j :: 0 <= i < j < |picks| ==> picks[i] < picks[j]
  }

  lemma ExcerptKept(lines: seq<Line>, picks: seq<nat>, log: seq<Line>, from: nat, upto: nat, later: nat, line: Line)
    requires Excerpt(lines, picks, log, from, upto) && from <= upto <= later <= |log| + 1
    ensures Excerpt(lines, picks, log + [line], from, later)
    ensures (log + [line])[from..upto] == log[from..upto]
  {
  }

  lemma ExcerptTaken(lines: seq<Line>, picks: seq<nat>, log: seq<Line>, from: nat, line: Line)
    requires Excerpt(lines, picks, log, from, |log|) && from <= |log|
    ensures Excerpt(lines + [line], picks + [|log|], log + [line], from, |log| + 1)
    ensures (log + [line])[from..|log| + 1] == log[from..|log|] + [line]
  {
  }

  /** What a buffer holds after the lines are put in, as far as there is room. */
  function Buffered(queue: seq<Line>, capacity: nat, lines: seq<Line>): seq<Line>
    requires |queue| <= capacity
  {
    queue + if |queue| + |lines| <= capacity then lines else lines[..capacity - |queue|]
  }

  lemma BufferedMeans(queue: seq<Line>, capacity: nat, lines: seq<Line>)
    requires |queue| <= capacity
    ensures Buffered(queue, capacity, lines) ==
            if |queue| + |lines| <= capacity then queue + lines else (queue + lines)[..capacity]
  {
  }

  lemma BufferedStep(queue: seq<Line>, capacity: nat, lines: seq<Line>, i: nat)
    requires |queue| <= capacity && i < |lines|
    ensures var b := Buffered(queue, capacity, lines[..i]);
      && (|b| < capacity <==> |queue| + i < capacity)
      && Buffered(queue, capacity, lines[..i + 1]) == if |b| < capacity then b + [lines[i]] else b
  {
  }

  /** One more line of those that are there already. */
  lemma ReplayStep(lines: seq<Line>, from: nat, i: nat)
    requires from <= i < |lines|
    ensures lines[..i] + [lines[i]] == lines[..i + 1]
    ensures var b := Buffered([], 256, lines[from..i]);
      && (|b| < 256 <==> i - from < 256)
      && Buffered([], 256, lines[from..i + 1]) == if |b| < 256 then b + [lines[i]] else b
  {
    BufferedStep([], 256, lines[from..], i - from);
    assert lines[from..][..i - from] == lines[from..i] && lines[from..][..i - from + 1] == lines[from..i + 1];
    hide Buffered;
  }

  lemma Replayed(lines: seq<Line>, from: nat)
    requires from <= |lines|
    ensures Buffered([], 256, lines[from..from]) == []
    ensures Buffered([], 256, lines[from..|lines|]) == lines[from..if from + 256 < |lines| then from + 256 else |lines|]
    ensures lines[..|lines|] == lines
  {
  }

  lemma BufferedStart(sub: Subscriber, batch: seq<Line>, log: seq<Line>)
    requires sub.Follows(log)
    ensures |sub.queue| <= sub.capacity && Buffered(sub.queue, sub.capacity, batch[..0]) == sub.queue
    ensures log + batch[..0] == log
  {
  }

  predicate IsInt64(n: int) {
    -0x8000_0000_0000_0000 <= n < 0x8000_0000_0000_0000
  }

  type int64 = n: int | IsInt64(n)

  /** The sum of two int64 values, as Go computes it. */
  function Wrap64(n: int): int {
    if n >= 0x8000_0000_0000_0000 then n - 0x1_0000_0000_0000_0000
    else if n < -0x8000_0000_0000_0000 then n + 0x1_0000_0000_0000_0000
    else n
  }

  datatype Subscription = Subscribed(sub: Subscriber) | AlreadyComplete | Panics

  class Subscriber {
    const capacity: nat
    var queue: seq<Line>         // the buffered channel
    var closed: bool
    ghost const task: string
    ghost var from: nat          // where in the log it starts
    ghost var upto: nat          // how much of the log it has been offered
    ghost var sent: seq<Line>    // everything ever put into the channel
    ghost var picks: seq<nat>    // the places in the log where that stood
    ghost var missed: bool       // the buffer was full at a send

    /** What was sent is an excerpt of the log, and all of it if the buffer was never full. */
    ghost predicate Follows(log: seq<Line>)
      reads this
    {
      && |queue| <= capacity && |queue| <= |sent| && queue == sent[|sent| - |queue|..]
      && from <= upto <= |log| && (!closed ==> upto == |log|)
      && Excerpt(sent, picks, log, from, upto)
      && (!missed ==> sent == log[from..upto])
    }

    /** The lines were offered in turn: a closed subscriber takes none, an open one as many as its
        buffer has room for. */
    twostate predicate Took(batch: seq<Line>)
      reads this
    {
      && closed == old(closed) && from == old(from) && (closed ==> unchanged(this))
      && |old(queue)| <= capacity
      && (!closed ==> queue == Buffered(old(queue), capacity, batch))
      && (!closed ==> missed == (old(missed) || |old(queue)| + |batch| > capacity))
    }

    /** It starts at the given place, or at the end of the log if that comes first, and its buffer
        has the lines from there on, as far as there is room. */
    ghost predicate Received(log: seq<Line>, since: nat)
      reads this
    {
      && from == (if since < |log| then since else |log|)
      && queue == log[from..if from + 256 < |log| then from + 256 else |log|]
      && missed == (from + 256 < |log|)
    }

    constructor (capacity: nat, ghost task: string, ghost from: nat, ghost log: seq<Line>)
      requires from <= |log|
      ensures this.capacity == capacity && this.task == task && !closed && queue == [] && !missed
      ensures this.from == from && Follows(log[..from])
    {
      this.capacity, this.task, this.from := capacity, task, from;
      queue, closed := [], false;
      upto, sent, picks, missed := from, [], [], false;
    }

    /** The log has grown by a line. It is lost on a subscriber whose buffer is full. */
    method Send(line: Line, ghost log: seq<Line>)
      requires Follows(log)
      modifies this
      ensures Follows(log + [line])
      ensures closed == old(closed) && from == old(from)
      ensures queue == if !closed && |old(queue)| < capacity then old(queue) + [line] else old(queue)
      ensures missed == (old(missed) || (!closed && |old(queue)| >= capacity))
      ensures closed ==> unchanged(this)
    {
      hide Excerpt;
      if closed {
        ExcerptKept(sent, picks, log, from, upto, upto, line);
        return;
      }
      ExcerptKept(sent, picks, log, from, upto, |log| + 1, line);
      ExcerptTaken(sent, picks, log, from, line);
      upto := |log| + 1;
      if |queue| < capacity {
        queue := queue + [line];
        sent, picks := sent + [line], picks + [|log|];
      } else {
        missed := true;
      }
    }

    /** The reader takes a line from the channel. */
    method Receive(ghost log: seq<Line>) returns (line: Option<Line>)
      requires Follows(log)
      modifies this`queue
      ensures Follows(log)
      ensures line == if old(queue) == [] then None else Some(old(queue)[0])
      ensures queue == if old(queue) == [] then [] else old(queue)[1..]
    {
      if queue == [] {
        return None;
      }
      line := Some(queue[0]);
      queue := queue[1..];
    }

    method Close(ghost log: seq<Line>)
      requires Follows(log)
      modifies this`closed
      ensures Follows(log) && closed && upto == old(upto)
    {
      closed := true;
    }
  }

  /** What a subscriber has been sent, line numbers and all, in a log whose lines are numbered by
      their places. */
  lemma SentInOrder(sub: Subscriber, log: seq<Line>)
    requires sub.Follows(log) && Contiguous(log)
    ensures forall i, j :: 0 <= i < j < |sub.sent| ==> sub.sent[i].number < sub.sent[j].number
    ensures forall i :: 0 <= i < |sub.sent| ==>
              sub.from <= sub.sent[i].number < |log| && log[sub.sent[i].number] == sub.sent[i]
    ensures !sub.missed ==>
              && |sub.sent| == (if sub.closed then sub.upto else |log|) - sub.from
              && forall i :: 0 <= i < |sub.sent| ==> sub.sent[i].number == sub.from + i
  {
    assert forall i :: 0 <= i < |sub.sent| ==> sub.sent[i].number == sub.picks[i];
  }

  /** What a closed subscriber was sent stays an excerpt of the log, however it grows. */
  lemma ClosedFollows(sub: Subscriber, log: seq<Line>, more: seq<Line>)
    requires sub.Follows(log) && sub.closed
    ensures sub.Follows(log + more)
  {
    assert (log + more)[sub.from..sub.upto] == log[sub.from..sub.upto];
  }

  lemma ContiguousFiled(kept: seq<Line>, batch: seq<Line>, t: string, now: int)
    ensures Contiguous(kept) ==> Contiguous(kept + FiledAll(batch, t, |kept|, now))
  {
  }

  lemma FiledMeans(batch: seq<Line>, t: string, first: nat, now: int)
    ensures forall i :: 0 <= i < |batch| ==> var l := FiledAll(batch, t, first, now)[i];
              && l.taskID == t && l.number == first + i && l.content == batch[i].content && l.stream == batch[i].stream
              && l.timestamp == if batch[i].timestamp.Some? then batch[i].timestamp else Some(now)
  {
  }

  class FileBackend {
    var disk: Disk

    /** Every file has been named by this backend. */
    ghost predicate Valid()
      reads this
    {
      forall name :: name in disk ==> Safe(name)
    }

    constructor ()
      ensures Valid() && disk == map[]
    {
      disk := map[];
    }

    method Append(t: string, lines: seq<Line>)
      requires Valid()
      modifies this
      ensures Valid()
      ensures disk == old(disk)[FileName(t) := RecordsOf(old(disk), FileName(t)) + ToRecords(lines)]
      ensures FileName(t) in disk
      ensures var file, was := disk[FileName(t)], if FileName(t) in old(disk) then old(disk)[FileName(t)] else [];
        && |file| == |was| + |lines| && file[..|was|] == was
        && forall i :: 0 <= i < |lines| ==>
             var l := lines[i];
             file[|was| + i] ==
               Record(l.taskID, l.number, if l.timestamp.Some? then l.timestamp.value else 0, l.content, l.stream)
    {
      var name := FileName(t);
      var file := RecordsOf(disk, name);
      ghost var was := file;
      for i := 0 to |lines|
        invariant file == was + ToRecords(lines)[..i]
      {
        file := file + [ToRecord(lines[i])];
      }
      assert ToRecords(lines)[..|lines|] == ToRecords(lines);
      FileNameSafe(t);
      disk := disk[name := file];
    }

    method Load(t: string) returns (lines: seq<Line>)
      ensures FileName(t) !in disk ==> lines == []
      ensures FileName(t) in disk ==> IsSorting(ToLines(disk[FileName(t)]), lines)
    {
      lines := [];
      if FileName(t) !in disk {
        return;
      }
      var records := disk[FileName(t)];
      for i := 0 to |records|
        invariant lines == ToLines(records)[..i]
      {
        lines := lines + [ToLine(records[i])];
      }
      assert lines == ToLines(records);
      lines := Sort(lines);
    }

    method ListTasks() returns (ids: seq<string>)
      ensures forall t :: t in ids <==> t in disk
    {
      ids := [];
      var todo := disk.Keys;
      while todo != {}
        invariant todo <= disk.Keys && forall t :: t in ids <==> t in disk && t !in todo
      {
        var t :| t in todo;
        ids := ids + [t];
        todo := todo - {t};
      }
    }
  }

  /** Some sorting by line number. */
  method Sort(lines: seq<Line>) returns (sorted: seq<Line>)
    ensures IsSorting(lines, sorted)
  {
    sorted := [];
    for i := 0 to |lines|
      invariant IsSorting(lines[..i], sorted)
    {
      assert lines[..i + 1] == lines[..i] + [lines[i]];
      sorted := Insert(sorted, lines[i]);
    }
    assert lines[..|lines|] == lines;
  }

  function Insert(sorted: seq<Line>, l: Line): (r: seq<Line>)
    requires InOrder(sorted)
    ensures InOrder(r) && multiset(r) == multiset(sorted) + multiset{l}
  {
    if sorted == [] || sorted[|sorted| - 1].number <= l.number then sorted + [l]
    else
      var init, top := sorted[..|sorted| - 1], sorted[|sorted| - 1];
      var r := Insert(init, l);
      InsertBelow(init, top, l, r);
      assert sorted == init + [top];
      r + [top]
  }

  lemma InsertBelow(init: seq<Line>, top: Line, l: Line, r: seq<Line>)
    requires InOrder(init + [top]) && l.number <= top.number
    requires InOrder(r) && multiset(r) == multiset(init) + multiset{l}
    ensures InOrder(r + [top])
  {
    forall x | x in r
      ensures x.number <= top.number
    {
      assert x in multiset(r);
      if x != l {
        assert x in multiset(init);
        var i :| 0 <= i < |init| && init[i] == x;
        assert (init + [top])[i] == x && (init + [top])[|init|] == top;
      }
    }
    assert forall i :: 0 <= i < |r| ==> r[i] in r;
  }

  class Store {
    var logs: Logs
    var subscribers: map<string, seq<Subscriber>>
    var completed: map<string, bool>
    const file: FileBackend?

    ghost function ListenersOf(t: string): (subs: set<Subscriber>)
      reads this`subscribers
    {
      if t in subscribers then set i | 0 <= i < |subscribers[t]| :: subscribers[t][i] else {}
    }

    ghost function Listeners(): set<Subscriber>
      reads this`subscribers
    {
      set t, i | t in subscribers && 0 <= i < |subscribers[t]| :: subscribers[t][i]
    }

    /** The subscribers of the task follow this log. */
    ghost predicate Attached(t: string, log: seq<Line>)
      reads this`subscribers, ListenersOf(t)
    {
      t in subscribers ==>
        && Distinct(subscribers[t])
        && forall i :: 0 <= i < |subscribers[t]| ==> subscribers[t][i].task == t && subscribers[t][i].Follows(log)
    }

    /** Every subscriber follows the log of its task. */
    ghost predicate Valid()
      reads this`subscribers, this`logs, Listeners()
    {
      forall t :: t in subscribers ==> Attached(t, LinesOf(logs, t))
    }

    /** The store, with its file, is where this run of appends and restarts leads. */
    ghost predicate Records(run: seq<LogReload.Event>)
      reads this, file
    {
      file != null && LogReload.Legal(run) && LogReload.After(run) == LogReload.State(logs, file.disk)
    }

    constructor ()
      ensures Valid() && logs == map[] && file == null
    {
      logs, subscribers, completed := map[], map[], map[];
      file := null;
    }

    /** Reads what is on disk. */
    constructor WithFile(file: FileBackend)
      requires file.Valid()
      ensures Valid() && this.file == file && IsReload(file.disk, logs)
      ensures forall run :: LogReload.Legal(run) && LogReload.After(run).disk == file.disk ==>
                Records(run + [LogReload.Restart(logs)])
    {
      this.file := file;
      logs, subscribers, completed := map[], map[], map[];
      new;
      var ids := file.ListTasks();
      for i := 0 to |ids|
        invariant subscribers == map[]
        invariant forall t :: t in logs <==> t in ids[..i]
        invariant forall t :: t in logs ==> t in file.disk && IsSorting(ToLines(file.disk[t]), logs[t])
      {
        FileNameSafe(ids[i]);
        var lines := file.Load(ids[i]);
        logs := logs[ids[i] := lines];
      }
      assert ids[..|ids|] == ids;
      forall run | LogReload.Legal(run) && LogReload.After(run).disk == file.disk
        ensures Records(run + [LogReload.Restart(logs)])
      {
        LogReload.RunGoesOn(run, LogReload.Restart(logs));
      }
    }

    // ----- appending -----

    method FileBatch(t: string, lines: array<Line>, first: nat, now: int)
      modifies lines
      ensures lines[..] == FiledAll(old(lines[..]), t, first, now)
    {
      for i := 0 to lines.Length
        invariant forall k :: 0 <= k < i ==> lines[k] == Filed(old(lines[k]), t, first + k, now)
        invariant forall k :: i <= k < lines.Length ==> lines[k] == old(lines[k])
      {
        lines[i] := lines[i].(taskID := t, number := first + i);
        if lines[i].timestamp.None? {
          lines[i] := lines[i].(timestamp := Some(now));
        }
      }
    }

    /** Offers the new lines to one subscriber. */
    method Offer(sub: Subscriber, batch: seq<Line>, ghost log: seq<Line>)
      requires sub.Follows(log)
      modifies sub
      ensures sub.Follows(log + batch)
      ensures sub.Took(batch)
    {
      hide Buffered, Subscriber.Follows;
      BufferedStart(sub, batch, log);
      for i := 0 to |batch|
        invariant sub.Follows(log + batch[..i])
        invariant sub.closed == old(sub.closed) && sub.from == old(sub.from)
        invariant sub.closed ==> unchanged(sub)
        invariant !sub.closed ==> sub.queue == Buffered(old(sub.queue), sub.capacity, batch[..i])
        invariant !sub.closed ==> sub.missed == (old(sub.missed) || |old(sub.queue)| + i > sub.capacity)
      {
        assert log + batch[..i] + [batch[i]] == log + batch[..i + 1];
        BufferedStep(old(sub.queue), sub.capacity, batch, i);
        sub.Send(batch[i], log + batch[..i]);
      }
      assert batch[..|batch|] == batch;
    }

    /** Offers the new lines to each of the task's subscribers. */
    method Notify(t: string, batch: seq<Line>, ghost log: seq<Line>)
      requires Attached(t, log) && LinesOf(logs, t) == log + batch
      requires forall u :: u in subscribers && u != t ==> Attached(u, LinesOf(logs, u))
      modifies ListenersOf(t)
      ensures Valid()
      ensures forall sub :: sub in ListenersOf(t) ==> sub.Took(batch)
    {
      hide Excerpt, Buffered;
      if t !in subscribers {
        return;
      }
      var subs := subscribers[t];
      for i := 0 to |subs|
        invariant forall k :: 0 <= k < i ==> subs[k].Follows(log + batch)
        invariant forall k :: i <= k < |subs| ==> subs[k].Follows(log) && unchanged(subs[k])
        invariant forall k :: 0 <= k < i ==> subs[k].Took(batch)
      {
        Offer(subs[i], batch, log);
      }
      OthersAttached(t);
    }

    /** The subscribers of other tasks are other objects. */
    twostate lemma OthersAttached(t: string)
      requires subscribers == old(subscribers) && logs == old(logs) && t in subscribers
      requires forall i :: 0 <= i < |subscribers[t]| ==> old(subscribers[t][i].task) == t
      requires forall sub: Subscriber :: old(allocated(sub)) && sub !in ListenersOf(t) ==> unchanged(sub)
      requires forall u :: u in subscribers && u != t ==> old(Attached(u, LinesOf(logs, u)))
      ensures forall u :: u in subscribers && u != t ==> Attached(u, LinesOf(logs, u))
    {
      forall u | u in subscribers && u != t
        ensures Attached(u, LinesOf(logs, u))
      {
        assert old(Attached(u, LinesOf(logs, u)));
        forall i | 0 <= i < |subscribers[u]|
          ensures subscribers[u][i].task == u && subscribers[u][i].Follows(LinesOf(logs, u))
        {
          var sub := subscribers[u][i];
          assert old(sub.Follows(LinesOf(logs, u))) && sub !in ListenersOf(t);
        }
      }
    }

    /** Numbers the lines in place, keeps them, and offers them to the task's subscribers. */
    method Append(t: string, lines: array<Line>, now: int)
      requires Valid() && (file != null ==> file.Valid())
      modifies this`logs, lines, file, ListenersOf(t)
      ensures Valid() && (file != null ==> file.Valid())
      ensures lines[..] == FiledAll(old(lines[..]), t, |LinesOf(old(logs), t)|, now)
      ensures forall i :: 0 <= i < lines.Length ==> var was, l := old(lines[i]), lines[i];
                && l.taskID == t && l.number == (if t in old(logs) then |old(logs)[t]| else 0) + i
                && l.content == was.content && l.stream == was.stream
                && l.timestamp == if was.timestamp.Some? then was.timestamp else Some(now)
      ensures logs == old(logs)[t := (if t in old(logs) then old(logs)[t] else []) + lines[..]]
      ensures Contiguous(LinesOf(old(logs), t)) ==> Contiguous(logs[t])
      ensures file != null ==>
                file.disk ==
                    old(file.disk)[FileName(t) := RecordsOf(old(file.disk), FileName(t)) + ToRecords(lines[..])]
      ensures forall run :: old(Records(run)) ==> Records(run + [LogReload.Append(t, old(lines[..]), now)])
      ensures forall sub :: sub in ListenersOf(t) ==>
                && (sub.closed ==> unchanged(sub))
                && (!sub.closed ==> sub.queue == if |old(sub.queue)| + lines.Length <= sub.capacity
                                                 then old(sub.queue) + lines[..]
                                                 else (old(sub.queue) + lines[..])[..sub.capacity])
    {
      hide Subscriber.Follows, Contiguous, Buffered, LogReload.Legal, LogReload.After;
      var kept := LinesOf(logs, t);
      FileBatch(t, lines, |kept|, now);
      logs := logs[t := kept + lines[..]];
      if file != null {
        file.Append(t, lines[..]);
      }
      ContiguousFiled(kept, old(lines[..]), t, now);
      forall run | old(Records(run))
        ensures Records(run + [LogReload.Append(t, old(lines[..]), now)])
      {
        LogReload.RunGoesOn(run, LogReload.Append(t, old(lines[..]), now));
      }
      Notify(t, lines[..], kept);
      FiledMeans(old(lines[..]), t, |kept|, now);
      forall sub | sub in ListenersOf(t)
        ensures !sub.closed ==> sub.queue == if |old(sub.queue)| + lines.Length <= sub.capacity
                                             then old(sub.queue) + lines[..]
                                             else (old(sub.queue) + lines[..])[..sub.capacity]
      {
        if !sub.closed {
          BufferedMeans(old(sub.queue), sub.capacity, lines[..]);
        }
      }
    }

    // ----- subscribing and completing -----

    /** A new subscriber, with the lines that are there already; none for a completed task, and a
        panic with nothing changed for a negative start. */
    method Subscribe(t: string, since: int) returns (result: Subscription)
      requires Valid()
      modifies this`subscribers
      ensures Valid()
      ensures result.AlreadyComplete? <==> t in completed && completed[t]
      ensures result.Panics? <==> !(t in completed && completed[t]) && since < 0
      ensures !result.Subscribed? ==> subscribers == old(subscribers)
      ensures result.Subscribed? ==>
        && fresh(result.sub) && !result.sub.closed && result.sub.capacity == 256
        && subscribers ==
             old(subscribers)[t := (if t in old(subscribers) then old(subscribers)[t] else []) + [result.sub]]
        && var log := LinesOf(logs, t);
           var start := if since < |log| then since else |log|;
           && result.sub.from == start && result.sub.missed == (start + 256 < |log|)
           && result.sub.queue == log[start..if start + 256 < |log| then start + 256 else |log|]
    {
      hide Subscriber.Follows, Store.Attached, Store.Valid, Excerpt, Buffered;
      if t in completed && completed[t] {
        return AlreadyComplete;
      }
      if since < 0 {
        return Panics;
      }
      ghost var listening := Listeners();
      var sub := NewSubscriber(t, since);
      assert Listeners() == listening && sub !in listening;
      Attach(t, sub);
      result := Subscribed(sub);
    }

    /** A subscriber that has been sent the buffered lines. */
    method NewSubscriber(t: string, since: nat) returns (sub: Subscriber)
      ensures fresh(sub) && !sub.closed && sub.capacity == 256 && sub.task == t
      ensures sub.Follows(LinesOf(logs, t)) && sub.Received(LinesOf(logs, t), since)
    {
      hide Subscriber.Follows, Buffered;
      var lines := LinesOf(logs, t);
      ghost var from := if since < |lines| then since else |lines|;
      Replayed(lines, from);
      sub := new Subscriber(256, t, from, lines);
      if since < |lines| {
        Replay(sub, lines, since);
      }
    }

    /** Sends the lines from a place on. */
    method Replay(sub: Subscriber, lines: seq<Line>, since: nat)
      requires since < |lines| && sub.Follows(lines[..since])
      requires sub.capacity == 256 && !sub.closed && sub.queue == [] && !sub.missed && sub.from == since
      modifies sub
      ensures sub.Follows(lines) && !sub.closed && sub.from == since
      ensures sub.queue == Buffered([], 256, lines[since..|lines|]) && sub.missed == (since + 256 < |lines|)
    {
      hide Subscriber.Follows, Buffered;
      Replayed(lines, since);
      for i := since to |lines|
        invariant !sub.closed && sub.from == since && sub.Follows(lines[..i])
        invariant sub.queue == Buffered([], 256, lines[since..i]) && sub.missed == (256 < i - since)
      {
        ReplayStep(lines, since, i);
        sub.Send(lines[i], lines[..i]);
      }
    }

    method Attach(t: string, sub: Subscriber)
      requires Valid() && sub !in Listeners() && sub.task == t && sub.Follows(LinesOf(logs, t))
      modifies this`subscribers
      ensures Valid()
      ensures subscribers == old(subscribers)[t := (if t in old(subscribers) then old(subscribers)[t] else []) + [sub]]
    {
      var subs := if t in subscribers then subscribers[t] else [];
      assert forall u :: u in subscribers ==> Attached(u, LinesOf(logs, u));
      subscribers := subscribers[t := subs + [sub]];
      forall u | u in subscribers
        ensures Attached(u, LinesOf(logs, u))
      {
      }
    }

    method CloseAll(t: string)
      requires Valid()
      modifies ListenersOf(t)
      ensures Valid()
      ensures forall sub :: sub in ListenersOf(t) ==> sub.Follows(LinesOf(logs, t))
      ensures forall sub :: sub in ListenersOf(t) ==>
                sub.closed && (!old(sub.closed) ==> sub.upto == |LinesOf(logs, t)|)
      ensures forall sub :: sub in ListenersOf(t) ==> sub.sent == old(sub.sent) && sub.queue == old(sub.queue)
    {
      if t !in subscribers {
        return;
      }
      var subs := subscribers[t];
      ghost var log := LinesOf(logs, t);
      assert Attached(t, log);
      for i := 0 to |subs|
        invariant forall k :: 0 <= k < |subs| ==> subs[k].Follows(log)
        invariant forall k :: i <= k < |subs| ==> unchanged(subs[k])
        invariant forall k :: 0 <= k < i ==> subs[k].closed && (!old(subs[k].closed) ==> subs[k].upto == |log|)
        invariant forall k :: 0 <= k < i ==> subs[k].sent == old(subs[k].sent) && subs[k].queue == old(subs[k].queue)
      {
        subs[i].Close(log);
      }
      OthersAttached(t);
    }

    method Detach(t: string)
      requires Valid()
      modifies this`subscribers
      ensures Valid() && subscribers == old(subscribers) - {t}
    {
      subscribers := subscribers - {t};
      forall u | u in subscribers
        ensures Attached(u, LinesOf(logs, u))
      {
        assert old(Attached(u, LinesOf(logs, u)));
      }
    }

    /** Closes the task's subscribers, each of which has by now been offered all of the log from
        its start, and forgets them. */
    method Complete(t: string)
      requires Valid()
      modifies this`completed, this`subscribers, ListenersOf(t)
      ensures Valid() && completed == old(completed)[t := true] && subscribers == old(subscribers) - {t}
      ensures forall sub :: sub in old(ListenersOf(t)) ==>
                && sub.Follows(LinesOf(logs, t)) && sub.closed && (!old(sub.closed) ==> sub.upto == |LinesOf(logs, t)|)
                && sub.sent == old(sub.sent) && sub.queue == old(sub.queue)
    {
      completed := completed[t := true];
      CloseAll(t);
      Detach(t);
    }

    /** One page of the log, and its length. It panics for a negative offset, and where the sum of
        offset and limit wraps around to a negative end. */
    method Get(t: string, offset: int64, limit: int64) returns (page: Option<seq<Line>>, total: nat)
      ensures total == |LinesOf(logs, t)|
      ensures page.None? <==> offset < 0 || (offset < total && offset + limit >= 0x8000_0000_0000_0000)
      ensures page.Some? ==>
                page.value == if offset >= total then []
                              else if limit > 0 && offset + limit < total then LinesOf(logs, t)[offset..offset + limit]
                              else LinesOf(logs, t)[offset..]
    {
      var log := LinesOf(logs, t);
      total := |log|;
      if offset >= total {
        return Some([]), total;
      }
      var end := total;
      assert IsInt64(offset) && IsInt64(limit);
      var sum := Wrap64(offset + limit);
      if limit > 0 && sum < end {
        end := sum;
      }
      if offset < 0 || end < offset {
        return None, total;
      }
      page := Some(log[offset..end]);
    }
  }
}
