/** The background task manager: task objects shared between memory and coroutines, records on disk. */
module TaskManager {
  import opened Options
  import opened TaskStore

  class BackgroundTask {
    const id: nat
    const created: int
    var status: Status
    var completed: Option<int>
    var result: int

    constructor (id: nat, created: int)
      ensures Record() == Fresh(id, created)
    {
      this.id, this.created := id, created;
      status, completed, result := Running, None, 0;
    }

    function Record(): Task
      reads this
    {
      Task(id, created, status, completed, result)
    }
  }

  // ---------------------------------------------------------------- sorting by age

  predicate ByAge(order: seq<Task>) { forall i, j :: 0 <= i < j < |order| ==> Older(order[i], order[j]) }

  function Insert(order: seq<Task>, t: Task): seq<Task> {
    if order == [] then [t]
    else if Older(t, order[0]) then [t] + order
    else [order[0]] + Insert(order[1..], t)
  }

  lemma {:induction false} InsertMembers(order: seq<Task>, t: Task, u: Task)
    ensures u in Insert(order, t) <==> u in order || u == t
  {
    if order != [] {
      InsertMembers(order[1..], t, u);
      assert order == [order[0]] + order[1..];
    }
  }

  lemma {:induction false} InsertByAge(order: seq<Task>, t: Task)
    requires ByAge(order) && forall i :: 0 <= i < |order| ==> order[i].id != t.id
    ensures ByAge(Insert(order, t))
  {
    if order != [] && !Older(t, order[0]) {
      InsertByAge(order[1..], t);
      var rest := Insert(order[1..], t);
      forall i | 0 <= i < |rest| ensures Older(order[0], rest[i]) {
        InsertMembers(order[1..], t, rest[i]);
        if rest[i] in order[1..] {
          var k :| 0 <= k < |order[1..]| && order[1..][k] == rest[i];
          assert rest[i] == order[k + 1];
        }
      }
    }
  }

  method OldestFirst(tasks: map<nat, Task>, cutoff: int) returns (order: seq<Task>)
    requires Keyed(tasks)
    ensures InAgeOrder(order, tasks, cutoff)
  {
    order := [];
    var rest := set id | id in tasks && Candidate(tasks[id], cutoff);
    while rest != {}
      invariant ByAge(order)
      invariant rest <= tasks.Keys && forall id :: id in rest ==> Candidate(tasks[id], cutoff)
      invariant forall t :: t in order ==> t.id in tasks && tasks[t.id] == t && Candidate(t, cutoff) && t.id !in rest
      invariant forall id :: id in tasks && Candidate(tasks[id], cutoff) && id !in rest ==> tasks[id] in order
      decreases |rest|
    {
      var id :| id in rest;
      forall u ensures u in Insert(order, tasks[id]) <==> u in order || u == tasks[id] {
        InsertMembers(order, tasks[id], u);
      }
      InsertByAge(order, tasks[id]);
      order := Insert(order, tasks[id]);
      rest := rest - {id};
    }
    assert forall i :: 0 <= i < |order| ==> order[i] in order;
  }

  /** A task is among the first k by age exactly if it is a candidate not in the rest. */
  lemma EvictedIffInHead(order: seq<Task>, tasks: map<nat, Task>, cutoff: int, k: nat, id: nat)
    requires Keyed(tasks) && InAgeOrder(order, tasks, cutoff) && id in tasks && k <= |order|
    ensures id in (set t | t in order[..k] :: t.id) <==> Candidate(tasks[id], cutoff) && tasks[id] !in order[k..]
  {
    if Candidate(tasks[id], cutoff) {
      var i :| 0 <= i < |order| && order[i] == tasks[id];
      InTail(order, i, k);
      if i < k { assert order[..k][i] == tasks[id]; }
      forall t | t in order[..k] && t.id == id ensures i < k {
        var j :| 0 <= j < k && order[j] == t;
        assert order[j] == tasks[id];
      }
    } else {
      forall t | t in order[..k] ensures t.id != id {
        var j :| 0 <= j < k && order[j] == t;
      }
    }
  }

  /** The aged ones, and the oldest of the others as far as they exceed the cap: all that do not stay. */
  method ToEvict(tasks: map<nat, Task>, cutoff: int, cap: nat) returns (evicted: set<nat>)
    requires Keyed(tasks)
    ensures evicted == EvictedIds(tasks, cutoff, cap)
  {
    evicted := set id | id in tasks && Aged(tasks[id], cutoff);
    var order := OldestFirst(tasks, cutoff);
    var overflow := |order| - cap;
    if overflow > 0 {
      evicted := evicted + set t | t in order[..overflow] :: t.id;
    }
    forall id | id in tasks ensures id in evicted <==> !Stays(tasks, cutoff, cap, tasks[id]) {
      NewestStay(order, tasks, cutoff, cap, id);
      EvictedIffInHead(order, tasks, cutoff, if overflow > 0 then overflow else 0, id);
    }
  }

  // ---------------------------------------------------------------- the manager

  class Manager {
    var tasks: map<nat, BackgroundTask>
    var asyncTasks: map<nat, BackgroundTask>
    var disk: map<nat, Task>

    /** Every task in memory reads like its record. */
    ghost predicate Valid()
      reads this, tasks.Values
    {
      forall id :: id in tasks ==> tasks[id].id == id && id in disk && disk[id] == tasks[id].Record()
    }

    /** Every coroutine that is known changes the object that memory holds, if it holds one. */
    ghost predicate Exclusive()
      reads this, asyncTasks.Values
    {
      forall id :: id in asyncTasks ==> asyncTasks[id].id == id && (id in tasks ==> tasks[id] == asyncTasks[id])
    }

    function Records(): map<nat, Task>
      reads this, tasks.Values
    {
      map id | id in tasks :: tasks[id].Record()
    }

    constructor (found: map<nat, Task>)
      ensures Valid() && Exclusive() && disk == found && tasks == map[] && asyncTasks == map[]
    {
      tasks, asyncTasks, disk := map[], map[], found;
    }

    /** Evict, then start. Any id is accepted; only reusing one in flight lets a coroutine lose its object. */
    method Submit(id: nat, created: int, now: int, retentionMinutes: int, cap: nat) returns (task: BackgroundTask)
      requires Valid()
      modifies this
      ensures Valid() && fresh(task) && task.Record() == Fresh(id, created)
      ensures tasks == (old(tasks) - EvictedIds(old(Records()), now - retentionMinutes * 60, cap))[id := task]
      ensures asyncTasks == old(asyncTasks)[id := task] && disk == old(disk)[id := Fresh(id, created)]
      ensures old(Exclusive()) ==> Exclusive()
    {
      EvictCompletedTasks(now, retentionMinutes, cap);
      task := new BackgroundTask(id, created);
      tasks := tasks[id := task];
      disk := disk[id := task.Record()];
      asyncTasks := asyncTasks[id := task];
    }

    /**
     The coroutine's end: its object and the record change together. Memory still agrees if it holds
     this object or none under the id, and no longer if it holds another one that runs.
     */
    method EndTask(task: BackgroundTask, ok: bool, result: int, at: int)
      requires Valid() && task.status.Running?
      modifies this, task
      ensures tasks == old(tasks) && asyncTasks == old(asyncTasks) - {task.id}
      ensures disk == old(disk)[task.id := Done(old(task.Record()), ok, result, at)]
      ensures task.Record() == disk[task.id]
      ensures task.id in tasks && tasks[task.id] != task && tasks[task.id].status.Running? ==> !Valid()
      ensures task.id !in tasks || tasks[task.id] == task ==> Valid()
      ensures old(Exclusive()) ==> Exclusive()
    {
      task.status := if ok then Completed else Failed;
      task.completed := Some(at);
      task.result := result;
      disk := disk[task.id := task.Record()];
      asyncTasks := asyncTasks - {task.id};
    }

    /** Memory first, then disk: always the record on disk. */
    method GetTask(id: nat) returns (found: Option<Task>)
      requires Valid()
      ensures found == Lookup(disk, id)
    {
      if id in tasks { return Some(tasks[id].Record()); }
      return Lookup(disk, id);
    }

    method ListTasks() returns (all: map<nat, Task>)
      requires Valid()
      ensures all == disk
    {
      all := Records();
      var rest := disk.Keys;
      while rest != {}
        invariant rest <= disk.Keys
        invariant forall id :: id in all ==> id in disk && all[id] == disk[id]
        invariant forall id :: id in disk && id !in rest ==> id in all
        decreases |rest|
      {
        var id :| id in rest;
        if id !in all { all := all[id := disk[id]]; }
        rest := rest - {id};
      }
    }

    /** The same objects stay for exactly the tasks that stay; records on disk are not touched. */
    method EvictCompletedTasks(now: int, retentionMinutes: int, cap: nat)
      requires Valid()
      modifies this`tasks
      ensures Valid() && tasks == old(tasks) - EvictedIds(old(Records()), now - retentionMinutes * 60, cap)
    {
      var evicted := ToEvict(Records(), now - retentionMinutes * 60, cap);
      tasks := tasks - evicted;
    }

    method CleanupOldTasks(cutoff: int, staleCutoff: int) returns (removed: nat)
      requires Valid()
      modifies this
      ensures Valid() && asyncTasks == old(asyncTasks)
      ensures disk == Unexpired(old(disk), cutoff, staleCutoff) && removed == |old(disk)| - |disk|
      ensures tasks == map id | id in old(tasks) && !Expired(old(disk)[id], cutoff, staleCutoff) :: old(tasks)[id]
    {
      removed := 0;
      var rest := disk.Keys;
      while rest != {}
        invariant rest <= disk.Keys && asyncTasks == old(asyncTasks)
        invariant forall id :: id in disk && id !in rest <==> id in old(disk) && id !in rest && !Expired(old(disk)[id], cutoff, staleCutoff)
        invariant forall id :: id in disk ==> id in old(disk) && disk[id] == old(disk)[id]
        invariant forall id :: id in tasks <==> id in old(tasks) && id in disk
        invariant forall id :: id in tasks ==> tasks[id] == old(tasks)[id]
        invariant removed == |old(disk)| - |disk|
        decreases |rest|
      {
        var id :| id in rest;
        if Expired(disk[id], cutoff, staleCutoff) {
          assert |disk - {id}| == |disk| - 1 by { assert (disk - {id}).Keys == disk.Keys - {id}; }
          disk := disk - {id};
          tasks := tasks - {id};
          removed := removed + 1;
        }
        rest := rest - {id};
      }
    }
  }
}
