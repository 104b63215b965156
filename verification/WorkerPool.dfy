/**
 The fields a DigitalAnima updates while it leases and returns workers, one method per atomic
 stretch of `_acquire_background_worker`, `_release_background_worker` and the exclusive jobs.
 Each method is exactly one event of the machine in WorkerGate.
 */
module WorkerPool {
  import opened WorkerGate

  class Pool {
    var queue: seq<nat>
    var gate: Gate
    var count: nat
    var background: Background
    var active: map<nat, nat>
    // The suspended coroutines, which the event loop keeps for the pool.
    var workers: seq<WorkerPc>
    var jobs: seq<JobPc>

    function Value(): State
      reads this
    {
      State(queue, gate, count, background, active, workers, jobs)
    }

    constructor (size: nat)
      ensures Value() == Initial(size)
    {
      gate, count, background, active := Open, 0, Unlocked, map[];
      workers, jobs := [], [];
      new;
      queue := [];
      var slot := 0;
      while slot < size
        invariant 0 <= slot <= size
        invariant Value() == Initial(slot)
      {
        queue := queue + [slot];
        slot := slot + 1;
      }
    }

    method TakeSlot(w: nat)
      requires Enabled(Value(), Event.TakeSlot(w))
      modifies this
      ensures Value() == Next(old(Value()), Event.TakeSlot(w))
    {
      var slot := queue[0];
      queue := queue[1..];
      workers := workers[w := WaitGate(slot)];
    }

    method EnterGate(w: nat)
      requires Enabled(Value(), Event.EnterGate(w))
      modifies this
      ensures Value() == Next(old(Value()), Event.EnterGate(w))
    {
      var slot := workers[w].slot;
      gate := HeldBy(w);
      if count == 0 {
        workers := workers[w := WaitBackground(slot)];
      } else {
        Lease(w, slot);
      }
    }

    method TakeBackground(w: nat)
      requires Enabled(Value(), Event.TakeBackground(w))
      modifies this
      ensures Value() == Next(old(Value()), Event.TakeBackground(w))
    {
      background := ByPool;
      Lease(w, workers[w].slot);
    }

    method Lease(w: nat, slot: nat)
      requires w < |workers|
      modifies this
      ensures Value() == GrantLease(old(Value()), w, slot)
    {
      count := count + 1;
      gate := Open;
      active := active[slot := w];
      workers := workers[w := Leased(slot)];
    }

    method CancelAcquire(w: nat)
      requires Enabled(Value(), Event.CancelAcquire(w))
      modifies this
      ensures Value() == Next(old(Value()), Event.CancelAcquire(w))
    {
      if workers[w].WaitBackground? {
        gate := Open;
      }
      if !workers[w].WaitSlot? {
        queue := queue + [workers[w].slot];
      }
      workers := workers[w := Finished];
    }

    method StartRelease(w: nat)
      requires Enabled(Value(), Event.StartRelease(w))
      modifies this
      ensures Value() == Next(old(Value()), Event.StartRelease(w))
    {
      var slot := workers[w].slot;
      active := active - {slot};
      workers := workers[w := WaitReleaseGate(slot)];
    }

    method FinishRelease(w: nat) returns (becameIdle: bool)
      requires Enabled(Value(), Event.FinishRelease(w))
      modifies this
      ensures Value() == Next(old(Value()), Event.FinishRelease(w))
      ensures becameIdle <==> count == 0 && old(background) != Unlocked
    {
      becameIdle := false;
      if count > 0 {
        count := count - 1;
      }
      if count == 0 && background != Unlocked {
        background := Unlocked;
        becameIdle := true;
      }
      queue := queue + [workers[w].slot];
      workers := workers[w := Finished];
    }

    method StartJob(j: nat)
      requires Enabled(Value(), Event.StartJob(j))
      modifies this
      ensures Value() == Next(old(Value()), Event.StartJob(j))
    {
      background := ByJob(j);
      jobs := jobs[j := Running];
    }

    method FinishJob(j: nat)
      requires Enabled(Value(), Event.FinishJob(j))
      modifies this
      ensures Value() == Next(old(Value()), Event.FinishJob(j))
    {
      background := Unlocked;
      jobs := jobs[j := Over];
    }
  }
}
