/**
 The background task store: running and recent tasks in memory, every task on disk. Coroutines
 change the task object they were started with, memory forgets old results, disk keeps them.

 Everything between two awaits is one atomic event. Task ids and times are numbers; the order of
 the numbers stands for the string order of ids.
 */
module TaskStore {
  import opened Options

  datatype Status = Pending | Running | Completed | Failed

  datatype Task = Task(id: nat, created: int, status: Status, completed: Option<int>, result: int)
  {
    predicate Terminal() { status.Completed? || status.Failed? }
  }

  // ---------------------------------------------------------------- eviction from memory

  /** The sort key's first component. */
  function When(t: Task): int { if t.completed.Some? then t.completed.value else t.created }

  /** Lexicographic on completion time, creation time and id. */
  predicate Older(t: Task, u: Task) {
    When(t) < When(u) || (When(t) == When(u) && (t.created < u.created || (t.created == u.created && t.id < u.id)))
  }

  predicate Keyed(tasks: map<nat, Task>) { forall id :: id in tasks ==> tasks[id].id == id }

  predicate Aged(t: Task, cutoff: int) { t.Terminal() && t.completed.Some? && t.completed.value <= cutoff }

  /** Finished and young enough to stay if there is room. */
  predicate Candidate(t: Task, cutoff: int) { t.Terminal() && !Aged(t, cutoff) }

  function Newer(tasks: map<nat, Task>, cutoff: int, t: Task): set<nat> {
    set id | id in tasks && Candidate(tasks[id], cutoff) && Older(t, tasks[id])
  }

  /** Running tasks stay; a finished one stays if young and among the newest `cap`. */
  predicate Stays(tasks: map<nat, Task>, cutoff: int, cap: nat, t: Task) {
    !t.Terminal() || (!Aged(t, cutoff) && |Newer(tasks, cutoff, t)| < cap)
  }

  function Retained(tasks: map<nat, Task>, cutoff: int, cap: nat): map<nat, Task> {
    map id | id in tasks && Stays(tasks, cutoff, cap, tasks[id]) :: tasks[id]
  }

  /** What eviction takes out of memory. */
  function EvictedIds(tasks: map<nat, Task>, cutoff: int, cap: nat): set<nat> {
    set id | id in tasks && !Stays(tasks, cutoff, cap, tasks[id])
  }

  lemma {:induction false} SubsetSize(a: set<nat>, b: set<nat>)
    requires a <= b
    ensures |a| <= |b|
  {
    if a != {} {
      var x :| x in a;
      SubsetSize(a - {x}, b - {x});
    }
  }

  /** Evicting again at the same time removes nothing. */
  lemma EvictionIdempotent(tasks: map<nat, Task>, cutoff: int, cap: nat)
    ensures Retained(Retained(tasks, cutoff, cap), cutoff, cap) == Retained(tasks, cutoff, cap)
  {
    var kept := Retained(tasks, cutoff, cap);
    forall id | id in kept ensures Stays(kept, cutoff, cap, kept[id]) {
      SubsetSize(Newer(kept, cutoff, kept[id]), Newer(tasks, cutoff, kept[id]));
    }
  }

  /** The candidates from oldest to newest. */
  ghost predicate InAgeOrder(order: seq<Task>, tasks: map<nat, Task>, cutoff: int) {
    && (forall i, j :: 0 <= i < j < |order| ==> Older(order[i], order[j]))
    && (forall i :: 0 <= i < |order| ==>
          order[i].id in tasks && tasks[order[i].id] == order[i] && Candidate(order[i], cutoff))
    && (forall id :: id in tasks && Candidate(tasks[id], cutoff) ==> tasks[id] in order)
  }

  function Ids(order: seq<Task>): set<nat> { set i | 0 <= i < |order| :: order[i].id }

  lemma {:induction false} DistinctIds(order: seq<Task>)
    requires forall i, j :: 0 <= i < j < |order| ==> order[i].id != order[j].id
    ensures |Ids(order)| == |order|
  {
    if order != [] {
      var shorter, last := order[..|order| - 1], order[|order| - 1];
      DistinctIds(shorter);
      assert forall i :: 0 <= i < |shorter| ==> shorter[i] == order[i];
      assert last.id !in Ids(shorter);
      assert Ids(order) == Ids(shorter) + {last.id};
    }
  }

  /** In age order, the tasks newer than the one at i are those after it. */
  lemma NewerCount(order: seq<Task>, tasks: map<nat, Task>, cutoff: int, i: nat)
    requires Keyed(tasks) && InAgeOrder(order, tasks, cutoff) && i < |order|
    ensures |Newer(tasks, cutoff, order[i])| == |order| - 1 - i
  {
    var after := order[i + 1..];
    forall id | id in Newer(tasks, cutoff, order[i]) ensures id in Ids(after) {
      var k :| 0 <= k < |order| && order[k] == tasks[id];
      assert k > i && after[k - i - 1] == order[k];
    }
    forall id | id in Ids(after) ensures id in Newer(tasks, cutoff, order[i]) {
      var k :| 0 <= k < |after| && after[k].id == id;
      assert after[k] == order[i + 1 + k];
    }
    assert Newer(tasks, cutoff, order[i]) == Ids(after);
    forall j, k | 0 <= j < k < |after| ensures after[j].id != after[k].id {
      assert after[j] == order[i + 1 + j] && after[k] == order[i + 1 + k];
    }
    DistinctIds(after);
  }

  /** Of the finished tasks young enough, exactly the newest `cap` stay, or all if there are no more. */
  lemma NewestStay(order: seq<Task>, tasks: map<nat, Task>, cutoff: int, cap: nat, id: nat)
    requires Keyed(tasks) && InAgeOrder(order, tasks, cutoff) && id in tasks
    ensures var overflow := if |order| > cap then |order| - cap else 0;
      id in Retained(tasks, cutoff, cap) <==> !tasks[id].Terminal() || tasks[id] in order[overflow..]
  {
    var t, overflow := tasks[id], if |order| > cap then |order| - cap else 0;
    if Candidate(t, cutoff) {
      var i :| 0 <= i < |order| && order[i] == t;
      NewerCount(order, tasks, cutoff, i);
      InTail(order, i, overflow);
    } else {
      assert t !in order;
      assert forall u :: u in order[overflow..] ==> u in order;
    }
  }

  lemma InTail(order: seq<Task>, i: nat, k: nat)
    requires i < |order| && k <= |order| && forall i, j :: 0 <= i < j < |order| ==> Older(order[i], order[j])
    ensures order[i] in order[k..] <==> i >= k
  {
    if i >= k { assert order[k..][i - k] == order[i]; }
  }

  // ---------------------------------------------------------------- memory over disk

  /** Records on disk, and the task objects of coroutines still running, by serial number. */
  datatype Store = Store(disk: map<nat, Task>, flights: map<nat, Task>, serials: nat)

  /** A task object in memory; the serial number is its identity. */
  datatype Entry = Entry(task: Task, serial: nat)

  datatype State = State(memory: map<nat, Entry>, store: Store)

  datatype Event =
    | Submit(id: nat, created: int)
    | Finish(serial: nat, ok: bool, result: int, at: int)
    | Cancel(serial: nat)                                   // saved as it is: still running
    | Evict(cutoff: int, cap: nat)
    | Cleanup(cutoff: int, staleCutoff: int)
    | Restart

  predicate Enabled(st: Store, e: Event) {
    match e
    case Finish(serial, _, _, _) => serial in st.flights
    case Cancel(serial) => serial in st.flights
    case _ => true
  }

  function Fresh(id: nat, created: int): Task { Task(id, created, Running, None, 0) }

  function Done(t: Task, ok: bool, result: int, at: int): Task {
    t.(status := if ok then Completed else Failed, completed := Some(at), result := result)
  }

  predicate Expired(t: Task, cutoff: int, staleCutoff: int) {
    || (t.Terminal() && t.completed.Some? && t.completed.value != 0 && t.completed.value < cutoff)
    || (t.status.Running? && t.created != 0 && t.created < staleCutoff)
  }

  function Unexpired(disk: map<nat, Task>, cutoff: int, staleCutoff: int): map<nat, Task> {
    map id | id in disk && !Expired(disk[id], cutoff, staleCutoff) :: disk[id]
  }

  /** What happens below memory; eviction is not part of it. */
  function StoreNext(st: Store, e: Event): Store
    requires Enabled(st, e)
  {
    match e
    case Submit(id, created) =>
      var t := Fresh(id, created);
      Store(st.disk[id := t], st.flights[st.serials := t], st.serials + 1)
    case Finish(serial, ok, result, at) =>
      var t := Done(st.flights[serial], ok, result, at);
      st.(disk := st.disk[t.id := t], flights := st.flights - {serial})
    case Cancel(serial) =>
      var t := st.flights[serial];
      st.(disk := st.disk[t.id := t], flights := st.flights - {serial})
    case Evict(_, _) => st
    case Cleanup(cutoff, stale) => st.(disk := Unexpired(st.disk, cutoff, stale))
    case Restart => st.(flights := map[])
  }

  function Tasks(memory: map<nat, Entry>): map<nat, Task> { map id | id in memory :: memory[id].task }

  function MemoryNext(memory: map<nat, Entry>, st: Store, e: Event): map<nat, Entry>
    requires Enabled(st, e)
  {
    match e
    case Submit(id, created) => memory[id := Entry(Fresh(id, created), st.serials)]
    case Finish(serial, ok, result, at) =>
      // the coroutine changes its own object, which memory may or may not still hold
      var t := st.flights[serial];
      if t.id in memory && memory[t.id].serial == serial
      then memory[t.id := Entry(Done(t, ok, result, at), serial)] else memory
    case Cancel(serial) => memory
    case Evict(cutoff, cap) =>
      var kept := Retained(Tasks(memory), cutoff, cap);
      map id | id in memory && id in kept :: memory[id]
    case Cleanup(cutoff, stale) =>
      map id | id in memory && !(id in st.disk && Expired(st.disk[id], cutoff, stale)) :: memory[id]
    case Restart => map[]
  }

  function Next(s: State, e: Event): State
    requires Enabled(s.store, e)
  {
    State(MemoryNext(s.memory, s.store, e), StoreNext(s.store, e))
  }

  // ---------------------------------------------------------------- what callers see

  /** get_task: memory first, then disk. */
  function Get(s: State, id: nat): Option<Task> {
    if id in s.memory then Some(s.memory[id].task) else Lookup(s.store.disk, id)
  }

  function Lookup(disk: map<nat, Task>, id: nat): Option<Task> { if id in disk then Some(disk[id]) else None }

  /** list_tasks before filtering and sorting: memory, completed from disk. */
  function List(s: State): map<nat, Task> { s.store.disk + Tasks(s.memory) }

  predicate Agree(s: State) {
    forall id :: id in s.memory ==> id in s.store.disk && s.store.disk[id] == s.memory[id].task
  }

  /** Memory agrees with disk, and holds the object of every coroutine that runs under an id it knows. */
  predicate Inv(s: State) {
    var st := s.store;
    && Agree(s)
    && (forall id :: id in s.memory ==> s.memory[id].task.id == id && s.memory[id].serial < st.serials)
    && (forall n :: n in st.flights ==> n < st.serials)
    && (forall n :: n in st.flights && st.flights[n].id in s.memory ==>
          s.memory[st.flights[n].id] == Entry(st.flights[n], n))
    && (forall n, m :: n in st.flights && m in st.flights && n != m ==> st.flights[n].id != st.flights[m].id)
  }

  predicate InFlight(st: Store, id: nat) { exists n :: n in st.flights && st.flights[n].id == id }

  /** Generated ids are new; a caller's own id must at least not be in flight. */
  predicate FreshId(st: Store, e: Event) { e.Submit? ==> !InFlight(st, e.id) }

  lemma StepKeepsAgreement(s: State, e: Event)
    requires Inv(s) && Enabled(s.store, e) && FreshId(s.store, e)
    ensures Inv(Next(s, e))
  {
    match e
    case Submit(id, created) =>
    case Finish(serial, ok, result, at) =>
    case Cancel(serial) =>
    case _ =>
  }

  predicate Legal(st: Store, run: seq<Event>)
    decreases |run|
  {
    run == [] || (Enabled(st, run[0]) && FreshId(st, run[0]) && Legal(StoreNext(st, run[0]), run[1..]))
  }

  function Exec(s: State, run: seq<Event>): State
    requires Legal(s.store, run)
    decreases |run|
  {
    if run == [] then s else Exec(Next(s, run[0]), run[1..])
  }

  const NOTHING := Store(map[], map[], 0)
  const EMPTY := State(map[], NOTHING)

  lemma {:induction false} RunKeepsAgreement(s: State, run: seq<Event>)
    requires Inv(s) && Legal(s.store, run)
    ensures Inv(Exec(s, run))
    decreases |run|
  {
    if run != [] {
      StepKeepsAgreement(s, run[0]);
      RunKeepsAgreement(Next(s, run[0]), run[1..]);
    }
  }

  // ---------------------------------------------------------------- what events leave on disk

  /** A finished task is on record as it ended, under its id and creation time; all other records are as before. */
  lemma FinishedRecord(st: Store, serial: nat, ok: bool, result: int, at: int)
    requires serial in st.flights
    ensures var t, after := st.flights[serial], StoreNext(st, Finish(serial, ok, result, at));
      && after.disk.Keys == st.disk.Keys + {t.id} && after.flights == st.flights - {serial}
      && after.disk[t.id] == Task(t.id, t.created, if ok then Completed else Failed, Some(at), result)
      && forall id :: id in st.disk && id != t.id ==> after.disk[id] == st.disk[id]
  {
  }

  /** A new task is on record as running, and a cancelled one stays so. */
  lemma StartedRecord(st: Store, id: nat, created: int)
    requires forall n :: n in st.flights ==> n < st.serials
    ensures var after := StoreNext(st, Submit(id, created));
      && after.disk == st.disk[id := Task(id, created, Running, None, 0)]
      && after.flights.Keys == st.flights.Keys + {st.serials} && after.flights[st.serials] == Task(id, created, Running, None, 0)
      && StoreNext(after, Cancel(st.serials)).disk == after.disk
  {
  }

  /**
   A clean-up removes exactly the finished tasks that ended before the cutoff and the running ones that
   started before theirs; a time of zero counts as unknown. Restarts remove no record.
   */
  lemma CleanedRecords(st: Store, cutoff: int, stale: int, id: nat)
    ensures var disk := StoreNext(st, Cleanup(cutoff, stale)).disk;
      && (id in disk ==> id in st.disk && disk[id] == st.disk[id])
      && (id in st.disk && id !in disk <==>
            id in st.disk && match st.disk[id].status
              case Pending => false
              case Running => st.disk[id].created != 0 && st.disk[id].created < stale
              case _ => st.disk[id].completed.Some? && st.disk[id].completed.value != 0 && st.disk[id].completed.value < cutoff)
    ensures StoreNext(st, Restart).disk == st.disk
  {
  }

  /** Memory after an eviction: all tasks not finished, and of the finished ones young enough the newest, at most so many. */
  lemma EvictedMemory(s: State, cutoff: int, cap: nat, id: nat)
    requires id in s.memory
    ensures var kept, t := Next(s, Evict(cutoff, cap)).memory, s.memory[id].task;
      var finished := t.status.Completed? || t.status.Failed?;
      && (id in kept ==> kept[id] == s.memory[id])
      && (!finished ==> id in kept)
      && (finished && t.completed.Some? && t.completed.value <= cutoff ==> id !in kept)
      && (finished && !(t.completed.Some? && t.completed.value <= cutoff) ==>
            (id in kept <==> |Newer(Tasks(s.memory), cutoff, t)| < cap))
  {
  }

  /** A task is newer by completion, or creation if that is unknown, then by creation, then by id; it is finished and young enough. */
  lemma NewerIs(tasks: map<nat, Task>, cutoff: int, t: Task, id: nat)
    ensures id in Newer(tasks, cutoff, t) ==> id in tasks
    ensures id in tasks ==>
      var u := tasks[id];
      var x, y := if t.completed.Some? then t.completed.value else t.created, if u.completed.Some? then u.completed.value else u.created;
      var youngEnough := (u.status.Completed? || u.status.Failed?) && (u.completed.Some? ==> u.completed.value > cutoff);
      var after := x < y || (x == y && (t.created < u.created || (t.created == u.created && t.id < u.id)));
      (id in Newer(tasks, cutoff, t) <==> youngEnough && after)
  {
  }

  /** Nothing expired stays in memory after a clean-up, and nothing else goes; a restart starts without memory. */
  lemma CleanedMemory(s: State, cutoff: int, stale: int, id: nat)
    requires Agree(s)
    ensures id in Next(s, Cleanup(cutoff, stale)).memory <==> id in s.memory && id in Next(s, Cleanup(cutoff, stale)).store.disk
    ensures Next(s, Restart).memory == map[]
  {
  }

  // ---------------------------------------------------------------- one plain map

  /** The same run on a store without memory. */
  function StoreExec(st: Store, run: seq<Event>): Store
    requires Legal(st, run)
    decreases |run|
  {
    if run == [] then st else StoreExec(StoreNext(st, run[0]), run[1..])
  }

  lemma {:induction false} MemoryChangesNothingBelow(s: State, run: seq<Event>)
    requires Legal(s.store, run)
    ensures Exec(s, run).store == StoreExec(s.store, run)
    decreases |run|
  {
    if run != [] { MemoryChangesNothingBelow(Next(s, run[0]), run[1..]); }
  }

  /** After any run, get and list answer from memory and disk what one plain map of all tasks holds. */
  lemma AnswersLikePlainMap(run: seq<Event>, id: nat)
    requires Legal(NOTHING, run)
    ensures var s, plain := Exec(EMPTY, run), StoreExec(NOTHING, run).disk;
      Get(s, id) == Lookup(plain, id) && List(s) == plain
  {
    RunKeepsAgreement(EMPTY, run);
    MemoryChangesNothingBelow(EMPTY, run);
  }

  function WithoutEvictions(run: seq<Event>): seq<Event> {
    if run == [] then []
    else (if run[0].Evict? then [] else [run[0]]) + WithoutEvictions(run[1..])
  }

  lemma {:induction false} EvictionsDoNotReachDisk(st: Store, run: seq<Event>)
    requires Legal(st, run)
    ensures Legal(st, WithoutEvictions(run)) && StoreExec(st, WithoutEvictions(run)) == StoreExec(st, run)
    decreases |run|
  {
    if run != [] {
      EvictionsDoNotReachDisk(StoreNext(st, run[0]), run[1..]);
      var rest := WithoutEvictions(run);
      if run[0].Evict? {
        assert rest == WithoutEvictions(run[1..]);
      } else {
        assert rest[0] == run[0] && rest[1..] == WithoutEvictions(run[1..]);
      }
    }
  }

  /** No caller can tell whether, when or how much was evicted. */
  lemma EvictionInvisible(run: seq<Event>, id: nat)
    requires Legal(NOTHING, run)
    ensures Legal(NOTHING, WithoutEvictions(run))
    ensures Get(Exec(EMPTY, run), id) == Get(Exec(EMPTY, WithoutEvictions(run)), id)
    ensures List(Exec(EMPTY, run)) == List(Exec(EMPTY, WithoutEvictions(run)))
  {
    EvictionsDoNotReachDisk(NOTHING, run);
    AnswersLikePlainMap(run, id);
    AnswersLikePlainMap(WithoutEvictions(run), id);
  }

  // ---------------------------------------------------------------- reusing an id

  ghost predicate AgreesAfter(s: State, run: seq<Event>)
    requires Legal(s.store, run)
  {
    Agree(Exec(s, run))
  }

  /**
   Submitting under an id leaves memory and disk in agreement after whatever run follows, later
   submissions included, exactly if no coroutine runs under the id.
   */
  lemma ReuseSafeIffNotInFlight(s: State, id: nat, created: int)
    requires Inv(s)
    ensures (forall run | Legal(Next(s, Submit(id, created)).store, run) :: AgreesAfter(Next(s, Submit(id, created)), run))
        <==> !InFlight(s.store, id)
  {
    var t := Next(s, Submit(id, created));
    if InFlight(s.store, id) {
      var n :| n in s.store.flights && s.store.flights[n].id == id;
      var e := Finish(n, true, 0, 0);
      assert Next(t, e).store.disk[id].status == Completed && Next(t, e).memory[id].task.status == Running;
      OneEvent(t, e);
      assert id in Next(t, e).memory && !Agree(Next(t, e));
      assert Legal(t.store, [e]) && !AgreesAfter(t, [e]);
    } else {
      StepKeepsAgreement(s, Submit(id, created));
      forall run | Legal(t.store, run) ensures AgreesAfter(t, run) { RunKeepsAgreement(t, run); }
    }
  }

  lemma OneEvent(s: State, e: Event)
    requires Enabled(s.store, e) && FreshId(s.store, e)
    ensures Legal(s.store, [e]) && Exec(s, [e]) == Next(s, e)
  {
    assert [e][1..] == [];
    assert Legal(StoreNext(s.store, e), []);
    assert Exec(Next(s, e), []) == Next(s, e);
  }
}
