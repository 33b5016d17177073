/** The worker registry and its capacity ledger (pkg/worker/registry.go). */
module Workers {
  import opened Collections
  import opened Tasks

  datatype WorkerState = Active | Draining | Dead

  /** The scheduling state of one worker. */
  datatype Slot = Slot(
    cpu: uint32, memory: uint32, disk: uint32,  // what is available
    running: uint32, maxTasks: uint32, state: WorkerState)

  /** uint32 arithmetic wraps around. */
  function Add32(a: uint32, b: uint32): uint32 {
    (a + b) % 0x1_0000_0000
  }

  function Sub32(a: uint32, b: uint32): uint32 {
    (a - b) % 0x1_0000_0000
  }

  predicate Accepts(w: Slot, n: Need) {
    && w.state == Active && w.running < w.maxTasks
    && n.cpu <= w.cpu && n.memory <= w.memory && n.disk <= w.disk
  }

  function Reserve(w: Slot, n: Need): Slot {
    w.(cpu := Sub32(w.cpu, n.cpu), memory := Sub32(w.memory, n.memory), disk := Sub32(w.disk, n.disk),
       running := Add32(w.running, 1))
  }

  function Release(w: Slot, n: Need): Slot {
    w.(cpu := Add32(w.cpu, n.cpu), memory := Add32(w.memory, n.memory), disk := Add32(w.disk, n.disk),
       running := if w.running > 0 then w.running - 1 else 0)
  }

  function Beat(w: Slot, cpu: uint32, memory: uint32, disk: uint32, running: uint32): Slot {
    Slot(cpu, memory, disk, running, w.maxTasks, if w.state == Dead then Active else w.state)
  }

  /** What the worker would have left over, summed over the three resources. */
  function Leftover(w: Slot, n: Need): int {
    (w.cpu - n.cpu) + (w.memory - n.memory) + (w.disk - n.disk)
  }

  /** A worker that fits, and none that fits would be left with less. */
  ghost predicate BestFit(workers: map<string, Slot>, n: Need, w: string) {
    && w in workers && Accepts(workers[w], n)
    && forall o :: o in workers && Accepts(workers[o], n) ==> Leftover(workers[w], n) <= Leftover(workers[o], n)
  }

  /** No worker can take the task. */
  ghost predicate NoneAccepts(workers: map<string, Slot>, n: Need) {
    forall w :: w in workers ==> !Accepts(workers[w], n)
  }

  /** Nothing wraps around when the task is accepted. */
  lemma Exactly(w: Slot, n: Need)
    requires Accepts(w, n)
    ensures Sub32(w.cpu, n.cpu) == w.cpu - n.cpu && Sub32(w.memory, n.memory) == w.memory - n.memory
    ensures Sub32(w.disk, n.disk) == w.disk - n.disk && Add32(w.running, 1) == w.running + 1
  {
  }

  /** A reservation that was accepted is undone exactly by a release. */
  lemma ReleaseUndoesReserve(w: Slot, n: Need)
    requires Accepts(w, n)
    ensures Release(Reserve(w, n), n) == w
  {
    Exactly(w, n);
  }

  /** What is left over is what a reservation leaves, over the three resources. */
  lemma LeftoverIsLeft(w: Slot, n: Need)
    requires Accepts(w, n)
    ensures Leftover(w, n) == Reserve(w, n).cpu + Reserve(w, n).memory + Reserve(w, n).disk
  {
    Exactly(w, n);
  }

  class Info {
    const id: string
    const maxTasks: uint32
    var availableCPU: uint32
    var availableMemory: uint32
    var availableDisk: uint32
    var runningTasks: uint32
    var lastHeartbeat: int
    var registeredAt: int
    var state: WorkerState

    constructor (id: string, cpu: uint32, memory: uint32, disk: uint32, running: uint32, maxTasks: uint32)
      ensures this.id == id && Status() == Slot(cpu, memory, disk, running, maxTasks, Active)
      ensures availableCPU == cpu && availableMemory == memory && availableDisk == disk
      ensures runningTasks == running && this.maxTasks == maxTasks && state == Active
    {
      this.id, this.maxTasks := id, maxTasks;
      availableCPU, availableMemory, availableDisk, runningTasks := cpu, memory, disk, running;
      lastHeartbeat, registeredAt, state := 0, 0, Active;
    }

    function Status(): Slot
      reads this
    {
      Slot(availableCPU, availableMemory, availableDisk, runningTasks, maxTasks, state)
    }

    predicate CanAcceptTask(n: Need)
      reads this
      ensures CanAcceptTask(n) <==> Accepts(Status(), n)
      ensures CanAcceptTask(n) <==>
        && state == Active && runningTasks < maxTasks
        && n.cpu <= availableCPU && n.memory <= availableMemory && n.disk <= availableDisk
    {
      if state != Active then false
      else if runningTasks >= maxTasks then false
      else if availableCPU < n.cpu then false
      else if availableMemory < n.memory then false
      else availableDisk >= n.disk
    }
  }

  class Registry {
    var workers: map<string, Info>
    const heartbeatTimeout: int

    constructor (heartbeatTimeout: int)
      ensures Valid() && workers == map[] && this.heartbeatTimeout == heartbeatTimeout
    {
      workers := map[];
      this.heartbeatTimeout := heartbeatTimeout;
    }

    ghost predicate Valid()
      reads this
    {
      forall w :: w in workers ==> workers[w].id == w
    }

    ghost function Slots(): map<string, Slot>
      reads this, workers.Values
    {
      map w | w in workers :: workers[w].Status()
    }

    /** The slots when no worker but one has changed. */
    twostate lemma SlotsWritten(w: string)
      requires w in workers && workers == old(workers)
      requires forall o :: o in workers && o != w ==> workers[o].Status() == old(workers[o].Status())
      ensures Slots() == old(Slots())[w := workers[w].Status()]
    {
    }

    method Register(w: Info, now: int) returns (ok: bool)
      requires Valid()
      modifies this, w
      ensures Valid() && ok == (w.id != "")
      ensures !ok ==> unchanged(this) && unchanged(w)
      ensures ok ==> workers == old(workers)[w.id := w] && w.Status() == old(w.Status()).(state := Active)
      ensures Slots() == if ok then old(Slots())[w.id := old(w.Status()).(state := Active)] else old(Slots())
      ensures ok ==> w.state == Active && w.lastHeartbeat == now && w.registeredAt == now
      ensures w.availableCPU == old(w.availableCPU) && w.availableMemory == old(w.availableMemory)
      ensures w.availableDisk == old(w.availableDisk) && w.runningTasks == old(w.runningTasks)
    {
      if w.id == "" {
        return false;
      }
      w.registeredAt := now;
      w.lastHeartbeat := now;
      w.state := Active;
      workers := workers[w.id := w];
      return true;
    }

    method Unregister(id: string)
      requires Valid()
      modifies this
      ensures Valid() && workers == old(workers) - {id} && Slots() == old(Slots()) - {id}
    {
      workers := workers - {id};
    }

    /** Overwrites the ledger with what the worker reports, and revives a dead worker. */
    method Heartbeat(id: string, cpu: uint32, memory: uint32, disk: uint32, running: uint32, now: int)
      returns (ok: bool)
      requires Valid()
      modifies workers.Values
      ensures ok == (id in workers)
      ensures !ok ==> Slots() == old(Slots())
      ensures ok ==> Slots() == old(Slots())[id := Beat(old(Slots())[id], cpu, memory, disk, running)]
      ensures ok ==> var w := workers[id];
        && w.lastHeartbeat == now && w.runningTasks == running
        && w.availableCPU == cpu && w.availableMemory == memory && w.availableDisk == disk
        && w.state == if old(w.state) == Draining then Draining else Active
      ensures forall o :: o in workers && o != id ==> unchanged(workers[o])
    {
      if id !in workers {
        return false;
      }
      var w := workers[id];
      assert forall o :: o in workers && o != id ==> workers[o] != w;
      w.availableCPU := cpu;
      w.availableMemory := memory;
      w.availableDisk := disk;
      w.runningTasks := running;
      w.lastHeartbeat := now;
      if w.state == Dead {
        w.state := Active;
      }
      SlotsWritten(id);
      return true;
    }

    method Drain(id: string) returns (ok: bool)
      requires Valid()
      modifies workers.Values
      ensures ok == (id in workers)
      ensures !ok ==> Slots() == old(Slots())
      ensures ok ==> Slots() == old(Slots())[id := old(Slots())[id].(state := Draining)]
      ensures ok ==> var w := workers[id];
        && w.state == Draining && w.runningTasks == old(w.runningTasks) && w.lastHeartbeat == old(w.lastHeartbeat)
        && w.availableCPU == old(w.availableCPU) && w.availableMemory == old(w.availableMemory)
        && w.availableDisk == old(w.availableDisk)
      ensures forall o :: o in workers && o != id ==> unchanged(workers[o])
    {
      if id !in workers {
        return false;
      }
      assert forall o :: o in workers && o != id ==> workers[o] != workers[id];
      workers[id].state := Draining;
      SlotsWritten(id);
      return true;
    }

    method ReserveCapacity(id: string, n: Need) returns (ok: bool)
      requires Valid()
      modifies workers.Values
      ensures ok == (id in workers && Accepts(old(Slots())[id], n))
      ensures !ok ==> Slots() == old(Slots())
      ensures ok ==> Slots() == old(Slots())[id := Reserve(old(Slots())[id], n)]
      ensures ok ==> var w := workers[id];
        && old(w.state) == Active == w.state && old(w.runningTasks) < w.maxTasks
        && w.availableCPU == old(w.availableCPU) - n.cpu && w.availableMemory == old(w.availableMemory) - n.memory
        && w.availableDisk == old(w.availableDisk) - n.disk && w.runningTasks == old(w.runningTasks) + 1
      ensures !ok && id in workers ==> var w := workers[id];
        && unchanged(w)
        && (w.state != Active || w.runningTasks >= w.maxTasks
            || w.availableCPU < n.cpu || w.availableMemory < n.memory || w.availableDisk < n.disk)
      ensures forall o :: o in workers && o != id ==> unchanged(workers[o])
    {
      if id !in workers {
        return false;
      }
      var w := workers[id];
      if !w.CanAcceptTask(n) {
        return false;
      }
      Exactly(w.Status(), n);
      hide Sub32, Add32;
      assert forall o :: o in workers && o != id ==> workers[o] != w;
      w.availableCPU := Sub32(w.availableCPU, n.cpu);
      w.availableMemory := Sub32(w.availableMemory, n.memory);
      w.availableDisk := Sub32(w.availableDisk, n.disk);
      w.runningTasks := Add32(w.runningTasks, 1);
      SlotsWritten(id);
      return true;
    }

    method ReleaseCapacity(id: string, n: Need)
      requires Valid()
      modifies workers.Values
      ensures Slots() == if id in workers then old(Slots())[id := Release(old(Slots())[id], n)] else old(Slots())
      ensures id in workers ==> var w := workers[id];
        && w.availableCPU == (old(w.availableCPU) + n.cpu) % 0x1_0000_0000
        && w.availableMemory == (old(w.availableMemory) + n.memory) % 0x1_0000_0000
        && w.availableDisk == (old(w.availableDisk) + n.disk) % 0x1_0000_0000
        && w.runningTasks == (if old(w.runningTasks) == 0 then 0 else old(w.runningTasks) - 1)
        && w.state == old(w.state)
      ensures forall o :: o in workers && o != id ==> unchanged(workers[o])
    {
      if id !in workers {
        return;
      }
      var w := workers[id];
      assert forall o :: o in workers && o != id ==> workers[o] != w;
      w.availableCPU := Add32(w.availableCPU, n.cpu);
      w.availableMemory := Add32(w.availableMemory, n.memory);
      w.availableDisk := Add32(w.availableDisk, n.disk);
      if w.runningTasks > 0 {
        w.runningTasks := w.runningTasks - 1;
      }
      SlotsWritten(id);
    }

    /** Exactly the workers silent for longer than the timeout are declared dead. */
    method CheckHeartbeats(now: int) returns (dead: seq<string>)
      requires Valid()
      modifies workers.Values`state
      ensures Distinct(dead)
      ensures forall w :: w in dead <==>
                w in workers && old(workers[w].state) != Dead && now - workers[w].lastHeartbeat > heartbeatTimeout
      ensures Slots() == map w | w in workers ::
                if w in dead then old(Slots())[w].(state := Dead) else old(Slots())[w]
      ensures forall w :: w in workers ==> workers[w].state == if w in dead then Dead else old(workers[w].state)
    {
      dead := [];
      var todo := workers.Keys;
      while todo != {}
        invariant todo <= workers.Keys && Distinct(dead)
        invariant forall w :: w in dead <==>
                    && w in workers.Keys - todo && old(workers[w].state) != Dead
                    && now - workers[w].lastHeartbeat > heartbeatTimeout
        invariant forall w :: w in workers ==>
                    workers[w].state == if w in dead then Dead else old(workers[w].state)
      {
        var w :| w in todo;
        assert forall o :: o in workers && o != w ==> workers[o] != workers[w];
        if workers[w].state != Dead && now - workers[w].lastHeartbeat > heartbeatTimeout {
          workers[w].state := Dead;
          dead := dead + [w];
        }
        todo := todo - {w};
      }
    }

    /** The workers that are neither draining nor dead, in any order. */
    method ActiveWorkers() returns (active: seq<Info>)
      requires Valid()
      ensures forall w :: w in active <==> w in workers.Values && w.state == Active
    {
      active := [];
      var todo := workers.Keys;
      while todo != {}
        invariant todo <= workers.Keys
        invariant forall w :: w in active <==>
                    w in workers.Values && w.id in workers.Keys - todo && workers[w.id] == w && w.state == Active
      {
        var w :| w in todo;
        if workers[w].state == Active {
          active := active + [workers[w]];
        }
        todo := todo - {w};
      }
    }
  }
}
