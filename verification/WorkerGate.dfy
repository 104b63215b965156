/**
 The TaskExec worker pool of a DigitalAnima and the background lock it shares with
 heartbeat, consolidation and cron.

 Every stretch of a coroutine between two awaits is one atomic event. A waiting coroutine may
 be resumed in any order, so every schedule of asyncio is a run of this machine. Two faults are
 events as well: cancelling a release while it waits for the gate, and busy-marking raising
 after the count was raised.
 */
module WorkerGate {
  import opened SeqSums

  /** Where one leasing coroutine is suspended. */
  datatype WorkerPc =
    | WaitSlot
    | WaitGate(slot: nat)
    | WaitBackground(slot: nat)   // holds the gate lock
    | Leased(slot: nat)
    | WaitReleaseGate(slot: nat)
    | Finished
    | LostInRelease(slot: nat)    // release cancelled: slot and count never given back
    | FailedMarking               // slot given back by the handler, count not

  /** Heartbeat, consolidation or cron: takes the background lock alone. */
  datatype JobPc = Queued | Running | Over

  datatype Background = Unlocked | ByPool | ByJob(job: nat)
  datatype Gate = Open | HeldBy(worker: nat)

  datatype State = State(
    queue: seq<nat>,
    gate: Gate,
    count: nat,
    background: Background,
    active: map<nat, nat>,
    workers: seq<WorkerPc>,
    jobs: seq<JobPc>)

  datatype Event =
    | NewWorker
    | NewJob
    | TakeSlot(w: nat)
    | EnterGate(w: nat)
    | TakeBackground(w: nat)
    | StartRelease(w: nat)
    | FinishRelease(w: nat)
    | CancelAcquire(w: nat)
    | StartJob(j: nat)
    | FinishJob(j: nat)
    | CancelJob(j: nat)
    | CancelRelease(w: nat)
    | MarkingRaises(w: nat)
  {
    predicate Arrival() { NewWorker? || NewJob? }
    predicate Fault() { CancelRelease? || MarkingRaises? }
    predicate Cancellation() { CancelAcquire? || CancelJob? }
  }

  function Range(size: nat): seq<nat> {
    if size == 0 then [] else Range(size - 1) + [size - 1]
  }

  function Initial(size: nat): State {
    State(Range(size), Open, 0, Unlocked, map[], [], [])
  }

  // ---------------------------------------------------------------- the events

  predicate Enabled(s: State, e: Event) {
    match e
    case NewWorker => true
    case NewJob => true
    case TakeSlot(w) => w < |s.workers| && s.workers[w].WaitSlot? && s.queue != []
    case EnterGate(w) => w < |s.workers| && s.workers[w].WaitGate? && s.gate.Open?
    case TakeBackground(w) => w < |s.workers| && s.workers[w].WaitBackground? && s.background.Unlocked?
    case StartRelease(w) => w < |s.workers| && s.workers[w].Leased?
    case FinishRelease(w) => w < |s.workers| && s.workers[w].WaitReleaseGate? && s.gate.Open?
    case CancelAcquire(w) =>
      w < |s.workers| && (s.workers[w].WaitSlot? || s.workers[w].WaitGate? || s.workers[w].WaitBackground?)
    case StartJob(j) => j < |s.jobs| && s.jobs[j].Queued? && s.background.Unlocked?
    case FinishJob(j) => j < |s.jobs| && s.jobs[j].Running?
    case CancelJob(j) => j < |s.jobs| && s.jobs[j].Queued?
    case CancelRelease(w) => w < |s.workers| && s.workers[w].WaitReleaseGate?
    case MarkingRaises(w) =>
      && w < |s.workers|
      && (|| (s.workers[w].WaitGate? && s.gate.Open? && s.count > 0)
          || (s.workers[w].WaitBackground? && s.background.Unlocked?))
  }

  /** Past the gate: the count goes up, the lease is recorded and the gate is left. */
  function GrantLease(s: State, w: nat, slot: nat): State
    requires w < |s.workers|
  {
    s.(gate := Open, count := s.count + 1, active := s.active[slot := w], workers := s.workers[w := Leased(slot)])
  }

  function Next(s: State, e: Event): State
    requires Enabled(s, e)
  {
    match e
    case NewWorker => s.(workers := s.workers + [WaitSlot])
    case NewJob => s.(jobs := s.jobs + [Queued])
    case TakeSlot(w) =>
      s.(queue := s.queue[1..], workers := s.workers[w := WaitGate(s.queue[0])])
    case EnterGate(w) =>
      var slot := s.workers[w].slot;
      if s.count == 0 then
        s.(gate := HeldBy(w), workers := s.workers[w := WaitBackground(slot)])
      else
        GrantLease(s, w, slot)
    case TakeBackground(w) => GrantLease(s.(background := ByPool), w, s.workers[w].slot)
    case StartRelease(w) =>
      var slot := s.workers[w].slot;
      s.(active := s.active - {slot}, workers := s.workers[w := WaitReleaseGate(slot)])
    case FinishRelease(w) =>
      var left := if s.count > 0 then s.count - 1 else 0;
      s.(count := left,
         // released whoever holds it: the code asks only whether the lock is locked
         background := if left == 0 then Unlocked else s.background,
         queue := s.queue + [s.workers[w].slot],
         workers := s.workers[w := Finished])
    case CancelAcquire(w) =>
      var p := s.workers[w];
      s.(gate := if p.WaitBackground? then Open else s.gate,
         queue := if p.WaitSlot? then s.queue else s.queue + [p.slot],
         workers := s.workers[w := Finished])
    case StartJob(j) => s.(background := ByJob(j), jobs := s.jobs[j := Running])
    case FinishJob(j) => s.(background := Unlocked, jobs := s.jobs[j := Over])
    case CancelJob(j) => s.(jobs := s.jobs[j := Over])
    case CancelRelease(w) => s.(workers := s.workers[w := LostInRelease(s.workers[w].slot)])
    case MarkingRaises(w) =>
      var slot := s.workers[w].slot;
      var t := GrantLease(if s.workers[w].WaitBackground? then s.(background := ByPool) else s, w, slot);
      t.(queue := s.queue + [slot], workers := s.workers[w := FailedMarking])
  }

  predicate Legal(s: State, run: seq<Event>)
    decreases |run|
  {
    run == [] || (Enabled(s, run[0]) && Legal(Next(s, run[0]), run[1..]))
  }

  function Exec(s: State, run: seq<Event>): State
    requires Legal(s, run)
    decreases |run|
  {
    if run == [] then s else Exec(Next(s, run[0]), run[1..])
  }

  // ---------------------------------------------------------------- what every state keeps

  predicate PastGate(p: WorkerPc) {
    p.Leased? || p.WaitReleaseGate? || p.LostInRelease? || p.FailedMarking?
  }

  predicate Leak(p: WorkerPc) { p.LostInRelease? || p.FailedMarking? }

  const PAST: WorkerPc -> int := p => if PastGate(p) then 1 else 0
  const LEAKED: WorkerPc -> int := p => if Leak(p) then 1 else 0

  predicate Has(p: WorkerPc, x: nat) {
    (p.WaitGate? || p.WaitBackground? || p.Leased? || p.WaitReleaseGate? || p.LostInRelease?) && p.slot == x
  }

  function Holds(x: nat): WorkerPc -> int { p => if Has(p, x) then 1 else 0 }
  function Is(x: nat): nat -> int { y => if y == x then 1 else 0 }

  /** How many copies of slot x exist, in the queue and in the hands of coroutines. */
  function Copies(s: State, x: nat): int { Sum(s.queue, Is(x)) + Sum(s.workers, Holds(x)) }

  predicate CountOk(s: State) { s.count == Sum(s.workers, PAST) }

  ghost predicate SlotsOk(size: nat, s: State) {
    forall x: nat :: Copies(s, x) == if x < size then 1 else 0
  }

  predicate LocksOk(s: State) {
    && (s.background.ByPool? <==> s.count > 0)
    && (forall w :: 0 <= w < |s.workers| && s.workers[w].WaitBackground? ==> s.gate == HeldBy(w))
    && (s.gate.HeldBy? ==> s.gate.worker < |s.workers| && s.workers[s.gate.worker].WaitBackground? && s.count == 0)
    && (forall j :: 0 <= j < |s.jobs| && s.jobs[j].Running? ==> s.background == ByJob(j))
    && (s.background.ByJob? ==> s.background.job < |s.jobs| && s.jobs[s.background.job].Running?)
  }

  ghost predicate Inv(size: nat, s: State) { CountOk(s) && SlotsOk(size, s) && LocksOk(s) }

  lemma {:induction false} InitialQueue(size: nat, x: nat)
    ensures Sum(Range(size), Is(x)) == if x < size then 1 else 0
  {
    if size > 0 {
      InitialQueue(size - 1, x);
      var last: nat := size - 1;
      SumAppend(Range(last), last, Is(x));
    }
  }

  lemma CountStep(s: State, e: Event)
    requires CountOk(s) && LocksOk(s) && Enabled(s, e)
    ensures CountOk(Next(s, e))
  {
    match e
    case NewWorker => SumAppend(s.workers, WaitSlot, PAST);
    case NewJob | StartJob(_) | FinishJob(_) | CancelJob(_) =>
    case FinishRelease(w) =>
      SumUpdate(s.workers, w, Finished, PAST);
      SumAtLeast(s.workers, w, PAST);
    case _ =>
      var p := OneMoves(s, e, Next(s, e));
      SumUpdate(s.workers, e.w, p, PAST);
  }

  /** A worker's event moves that worker and no other; a fault, and nothing else, leaks. */
  lemma OneMoves(s: State, e: Event, t: State) returns (p: WorkerPc)
    requires Enabled(s, e) && t == Next(s, e) && !e.Arrival() && !e.StartJob? && !e.FinishJob? && !e.CancelJob?
    ensures e.w < |s.workers| && t.workers == s.workers[e.w := p]
    ensures LEAKED(s.workers[e.w]) == 0 && (LEAKED(p) == 1 <==> e.Fault())
    ensures WORK_LEFT(p) < WORK_LEFT(s.workers[e.w])
    ensures !e.FinishRelease? ==> t.count == s.count + PAST(p) - PAST(s.workers[e.w])
  {
    p := t.workers[e.w];
  }

  /** No event, not even a fault, makes or destroys a slot. */
  lemma CopiesStep(s: State, e: Event, x: nat)
    requires Enabled(s, e)
    ensures Copies(Next(s, e), x) == Copies(s, x)
  {
    match e
    case NewWorker => SumAppend(s.workers, WaitSlot, Holds(x));
    case NewJob | StartJob(_) | FinishJob(_) | CancelJob(_) =>
    case TakeSlot(w) => SumUpdate(s.workers, w, WaitGate(s.queue[0]), Holds(x));
    case FinishRelease(w) => CopiesReturned(s, Next(s, e), w, x);
    case MarkingRaises(w) => CopiesReturned(s, Next(s, e), w, x);
    case CancelAcquire(w) =>
      if s.workers[w].WaitSlot? {
        SumUpdate(s.workers, w, Finished, Holds(x));
      } else {
        CopiesReturned(s, Next(s, e), w, x);
      }
    case _ => SumUpdate(s.workers, e.w, Next(s, e).workers[e.w], Holds(x));
  }

  lemma CopiesReturned(s: State, t: State, w: nat, x: nat)
    requires w < |s.workers| && |t.workers| == |s.workers| && t.workers == s.workers[w := t.workers[w]]
    requires !s.workers[w].WaitSlot? && !s.workers[w].Finished? && !s.workers[w].FailedMarking?
    requires t.workers[w].Finished? || t.workers[w].FailedMarking?
    requires t.queue == s.queue + [s.workers[w].slot]
    ensures Copies(t, x) == Copies(s, x)
  {
    SumUpdate(s.workers, w, t.workers[w], Holds(x));
    SumAppend(s.queue, s.workers[w].slot, Is(x));
  }

  lemma LocksStep(s: State, e: Event)
    requires CountOk(s) && LocksOk(s) && Enabled(s, e)
    ensures LocksOk(Next(s, e))
  {
    match e
    case FinishRelease(w) => SumAtLeast(s.workers, w, PAST);
    case EnterGate(w) => EnterLocks(s, w);
    case TakeBackground(w) => TakeLocks(s, w);
    case MarkingRaises(w) => MarkingLocks(s, w);
    case _ =>
  }

  lemma EnterLocks(s: State, w: nat)
    requires LocksOk(s) && Enabled(s, EnterGate(w))
    ensures LocksOk(Next(s, EnterGate(w)))
  {
  }

  lemma TakeLocks(s: State, w: nat)
    requires LocksOk(s) && Enabled(s, TakeBackground(w))
    ensures LocksOk(Next(s, TakeBackground(w)))
  {
  }

  lemma MarkingLocks(s: State, w: nat)
    requires LocksOk(s) && Enabled(s, MarkingRaises(w))
    ensures LocksOk(Next(s, MarkingRaises(w)))
  {
  }

  lemma InvStep(size: nat, s: State, e: Event)
    requires Inv(size, s) && Enabled(s, e)
    ensures Inv(size, Next(s, e))
  {
    CountStep(s, e);
    forall x: nat ensures Copies(Next(s, e), x) == Copies(s, x) { CopiesStep(s, e, x); }
    LocksStep(s, e);
  }

  lemma {:induction false} InvRun(size: nat, s: State, run: seq<Event>)
    requires Inv(size, s) && Legal(s, run)
    ensures Inv(size, Exec(s, run))
    decreases |run|
  {
    if run != [] {
      InvStep(size, s, run[0]);
      InvRun(size, Next(s, run[0]), run[1..]);
    }
  }

  /** Every state of every run, faults and cancellations included, satisfies the invariant. */
  lemma ReachableInv(size: nat, run: seq<Event>)
    requires Legal(Initial(size), run)
    ensures Inv(size, Exec(Initial(size), run))
  {
    forall x: nat ensures Copies(Initial(size), x) == if x < size then 1 else 0 { InitialQueue(size, x); }
    InvRun(size, Initial(size), run);
  }

  // ---------------------------------------------------------------- exclusion and conservation

  /**
   No heartbeat, consolidation or cron job overlaps a leased worker, no two of them overlap each
   other, and the pool owns the background lock exactly while the count is positive.
   */
  lemma MutualExclusion(size: nat, run: seq<Event>)
    requires Legal(Initial(size), run)
    ensures var s := Exec(Initial(size), run);
      && s.count == Sum(s.workers, PAST)
      && (s.background.ByPool? <==> exists w :: 0 <= w < |s.workers| && PastGate(s.workers[w]))
      && (forall w, j :: 0 <= w < |s.workers| && 0 <= j < |s.jobs| && PastGate(s.workers[w]) ==> !s.jobs[j].Running?)
      && (forall i, j :: 0 <= i < |s.jobs| && 0 <= j < |s.jobs| && s.jobs[i].Running? && s.jobs[j].Running? ==> i == j)
  {
    ReachableInv(size, run);
    var s := Exec(Initial(size), run);
    SumNonNegative(s.workers, PAST);
    forall w | 0 <= w < |s.workers| && PastGate(s.workers[w])
      ensures s.background.ByPool?
    {
      assert PAST(s.workers[w]) == 1;
    }
    if s.background.ByPool? {
      var w :| 0 <= w < |s.workers| && PAST(s.workers[w]) != 0;
      assert PastGate(s.workers[w]);
    }
  }

  /** Each slot is in the free queue exactly once, or with exactly one coroutine, never both. */
  lemma SlotConservation(size: nat, run: seq<Event>, x: nat)
    requires Legal(Initial(size), run)
    ensures var s := Exec(Initial(size), run);
      && (x in s.queue || (exists w :: 0 <= w < |s.workers| && Has(s.workers[w], x)) <==> x < size)
      && (forall i, j :: 0 <= i < j < |s.queue| ==> !(s.queue[i] == x && s.queue[j] == x))
      && (forall w :: 0 <= w < |s.workers| && Has(s.workers[w], x) ==> x !in s.queue)
      && (forall v, w :: 0 <= v < w < |s.workers| ==> !(Has(s.workers[v], x) && Has(s.workers[w], x)))
  {
    ReachableInv(size, run);
    OneHolder(size, Exec(Initial(size), run), x);
  }

  lemma OneHolder(size: nat, s: State, x: nat)
    requires SlotsOk(size, s)
    ensures x in s.queue || (exists w :: 0 <= w < |s.workers| && Has(s.workers[w], x)) <==> x < size
    ensures forall i, j :: 0 <= i < j < |s.queue| ==> !(s.queue[i] == x && s.queue[j] == x)
    ensures forall w :: 0 <= w < |s.workers| && Has(s.workers[w], x) ==> x !in s.queue
    ensures forall v, w :: 0 <= v < w < |s.workers| ==> !(Has(s.workers[v], x) && Has(s.workers[w], x))
  {
    var q, h := Is(x), Holds(x);
    assert Copies(s, x) == if x < size then 1 else 0;
    SumNonNegative(s.queue, q);
    SumNonNegative(s.workers, h);
    assert forall w :: 0 <= w < |s.workers| ==> (h(s.workers[w]) == 1 <==> Has(s.workers[w], x));
    assert x in s.queue <==> exists i :: 0 <= i < |s.queue| && q(s.queue[i]) != 0;
    forall i, j | 0 <= i < j < |s.queue| ensures !(s.queue[i] == x && s.queue[j] == x) {
      SumPair(s.queue, i, j, q);
    }
    forall v, w | 0 <= v < w < |s.workers| ensures !(Has(s.workers[v], x) && Has(s.workers[w], x)) {
      SumPair(s.workers, v, w, h);
    }
  }

  /** The map of active workers lists exactly the current leases. */
  predicate ActiveOk(s: State) {
    && (forall w :: 0 <= w < |s.workers| && s.workers[w].Leased? ==>
          s.workers[w].slot in s.active && s.active[s.workers[w].slot] == w)
    && (forall x :: x in s.active ==> s.active[x] < |s.workers| && s.workers[s.active[x]] == Leased(x))
  }

  lemma NobodyElseHas(size: nat, s: State, w: nat, x: nat)
    requires SlotsOk(size, s) && w < |s.workers| && Has(s.workers[w], x)
    ensures forall v :: 0 <= v < |s.workers| && v != w ==> s.workers[v] != Leased(x)
  {
    OneHolder(size, s, x);
    forall v | 0 <= v < |s.workers| && v != w ensures s.workers[v] != Leased(x) {
      assert s.workers[v] == Leased(x) ==> Has(s.workers[v], x);
    }
  }

  lemma ActiveStep(size: nat, s: State, e: Event)
    requires Inv(size, s) && ActiveOk(s) && Enabled(s, e) && !e.MarkingRaises?
    ensures ActiveOk(Next(s, e))
  {
    if e.EnterGate? || e.TakeBackground? || e.StartRelease? {
      ActiveChanged(size, s, e);
    }
  }

  lemma ActiveChanged(size: nat, s: State, e: Event)
    requires Inv(size, s) && ActiveOk(s) && Enabled(s, e)
    requires e.EnterGate? || e.TakeBackground? || e.StartRelease?
    ensures ActiveOk(Next(s, e))
  {
    NobodyElseHas(size, s, e.w, s.workers[e.w].slot);
  }

  /** While busy-marking never raises, the map names exactly the leased slots and their tasks. */
  lemma ActiveIsLeases(size: nat, run: seq<Event>)
    requires Legal(Initial(size), run)
    requires forall i :: 0 <= i < |run| ==> !run[i].MarkingRaises?
    ensures ActiveOk(Exec(Initial(size), run))
  {
    ReachableInv(size, []);
    ActiveRun(size, Initial(size), run);
  }

  lemma {:induction false} ActiveRun(size: nat, s: State, run: seq<Event>)
    requires Inv(size, s) && ActiveOk(s) && Legal(s, run)
    requires forall i :: 0 <= i < |run| ==> !run[i].MarkingRaises?
    ensures ActiveOk(Exec(s, run))
    decreases |run|
  {
    if run != [] {
      InvStep(size, s, run[0]);
      ActiveStep(size, s, run[0]);
      ActiveRun(size, Next(s, run[0]), run[1..]);
    }
  }

  // ---------------------------------------------------------------- no deadlock

  /**
   A gate holder blocked on the background lock implies a zero count, so nobody is waiting to
   release; and a releaser can always go through the gate at once.
   */
  lemma ReleaserNeverBlocks(size: nat, run: seq<Event>, w: nat)
    requires Legal(Initial(size), run)
    requires w < |Exec(Initial(size), run).workers|
    ensures var s := Exec(Initial(size), run);
      && (s.workers[w].WaitBackground? ==>
            s.count == 0 && forall v :: 0 <= v < |s.workers| ==> !PastGate(s.workers[v]))
      && (s.workers[w].WaitReleaseGate? ==> Enabled(s, FinishRelease(w)))
  {
    ReachableInv(size, run);
    var s := Exec(Initial(size), run);
    SumNonNegative(s.workers, PAST);
    SumAtLeast(s.workers, w, PAST);
    if s.workers[w].WaitBackground? {
      forall v | 0 <= v < |s.workers| ensures !PastGate(s.workers[v]) {
        assert PAST(s.workers[v]) == 0;
      }
    }
  }

  const WORK_LEFT := (p: WorkerPc) =>
    match p
    case WaitSlot => 5
    case WaitGate(_) => 4
    case WaitBackground(_) => 3
    case Leased(_) => 2
    case WaitReleaseGate(_) => 1
    case _ => 0
  const JOB_LEFT := (p: JobPc) => if p.Queued? then 2 else if p.Running? then 1 else 0

  function Measure(s: State): int { Sum(s.workers, WORK_LEFT) + Sum(s.jobs, JOB_LEFT) }

  lemma MeasureStep(s: State, e: Event)
    requires Enabled(s, e) && !e.Arrival()
    ensures Measure(Next(s, e)) < Measure(s)
  {
    if e.StartJob? || e.FinishJob? || e.CancelJob? {
      SumUpdate(s.jobs, e.j, Next(s, e).jobs[e.j], JOB_LEFT);
    } else {
      var p := OneMoves(s, e, Next(s, e));
      SumUpdate(s.workers, e.w, p, WORK_LEFT);
    }
  }

  lemma MeasureNonNegative(s: State)
    ensures Measure(s) >= 0
    ensures Measure(s) == 0 <==>
      && (forall w :: 0 <= w < |s.workers| ==> WORK_LEFT(s.workers[w]) == 0)
      && (forall j :: 0 <= j < |s.jobs| ==> s.jobs[j].Over?)
  {
    SumNonNegative(s.workers, WORK_LEFT);
    SumNonNegative(s.jobs, JOB_LEFT);
    assert forall j :: 0 <= j < |s.jobs| ==> (JOB_LEFT(s.jobs[j]) == 0 <==> s.jobs[j].Over?);
  }

  /** A run without new arrivals is never longer than the work that was left. */
  lemma {:induction false} RunsAreBounded(s: State, run: seq<Event>)
    requires Legal(s, run) && forall i :: 0 <= i < |run| ==> !run[i].Arrival()
    ensures |run| + Measure(Exec(s, run)) <= Measure(s)
    decreases |run|
  {
    if run != [] {
      MeasureStep(s, run[0]);
      RunsAreBounded(Next(s, run[0]), run[1..]);
    }
  }

  predicate NoLeak(s: State) { forall w :: 0 <= w < |s.workers| ==> !Leak(s.workers[w]) }

  /** The next event of a stuck-looking state: drain releases first, then leases, then locks. */
  lemma Progress(size: nat, s: State) returns (e: Event)
    requires Inv(size, s) && NoLeak(s) && size > 0 && Measure(s) > 0
    ensures Enabled(s, e) && !e.Arrival() && !e.Fault() && !e.Cancellation()
  {
    if w: nat :| w < |s.workers| && s.workers[w].WaitReleaseGate? {
      SumAtLeast(s.workers, w, PAST);
      return FinishRelease(w);
    } else if w: nat :| w < |s.workers| && s.workers[w].Leased? {
      return StartRelease(w);
    } else if j: nat :| j < |s.jobs| && s.jobs[j].Running? {
      return FinishJob(j);
    }
    SumNonNegative(s.workers, PAST);
    assert s.background.Unlocked?;
    if w: nat :| w < |s.workers| && s.workers[w].WaitBackground? {
      return TakeBackground(w);
    } else if w: nat :| w < |s.workers| && s.workers[w].WaitGate? {
      return EnterGate(w);
    } else if w: nat :| w < |s.workers| && s.workers[w].WaitSlot? {
      OneHolder(size, s, 0);
      return TakeSlot(w);
    }
    MeasureNonNegative(s);
    var j: nat :| j < |s.jobs| && !s.jobs[j].Over?;
    return StartJob(j);
  }

  /**
   A fault-free run that can go no further has finished everything: every coroutine and job is
   over, the count is zero, both locks are free and the whole pool is back in the queue.
   */
  lemma {:induction false} MaximalRunsComplete(size: nat, run: seq<Event>)
    requires size > 0 && Legal(Initial(size), run)
    requires forall i :: 0 <= i < |run| ==> !run[i].Fault()
    requires forall e: Event :: Enabled(Exec(Initial(size), run), e) ==> e.Arrival()
    ensures var s := Exec(Initial(size), run);
      && (forall w :: 0 <= w < |s.workers| ==> s.workers[w].Finished?)
      && (forall j :: 0 <= j < |s.jobs| ==> s.jobs[j].Over?)
      && s.count == 0 && s.background.Unlocked? && s.gate.Open?
      && (forall x: nat :: x in s.queue <==> x < size)
  {
    ReachableInv(size, run);
    var s := Exec(Initial(size), run);
    FaultFree(Initial(size), run);
    MeasureNonNegative(s);
    if Measure(s) > 0 {
      var e := Progress(size, s);
      assert false;
    }
    forall w | 0 <= w < |s.workers| ensures s.workers[w].Finished? {
      assert WORK_LEFT(s.workers[w]) == 0;
    }
    SumNonNegative(s.workers, PAST);
    forall x: nat ensures x in s.queue <==> x < size { OneHolder(size, s, x); }
  }

  lemma {:induction false} FaultFree(s: State, run: seq<Event>)
    requires NoLeak(s) && Legal(s, run)
    requires forall i :: 0 <= i < |run| ==> !run[i].Fault()
    ensures NoLeak(Exec(s, run))
    decreases |run|
  {
    if run != [] { FaultFree(Next(s, run[0]), run[1..]); }
  }

  // ---------------------------------------------------------------- what a fault costs

  function Faults(run: seq<Event>): int {
    if run == [] then 0 else (if run[0].Fault() then 1 else 0) + Faults(run[1..])
  }

  /** The count is the live leases plus one for every fault so far: a fault is never made good. */
  lemma {:induction false} LeaksAccumulate(s: State, run: seq<Event>)
    requires Legal(s, run)
    ensures Sum(Exec(s, run).workers, LEAKED) == Sum(s.workers, LEAKED) + Faults(run)
    decreases |run|
  {
    if run != [] {
      LeakStep(s, run[0]);
      LeaksAccumulate(Next(s, run[0]), run[1..]);
    }
  }

  lemma LeakStep(s: State, e: Event)
    requires Enabled(s, e)
    ensures Sum(Next(s, e).workers, LEAKED) == Sum(s.workers, LEAKED) + if e.Fault() then 1 else 0
  {
    match e
    case NewWorker => SumAppend(s.workers, WaitSlot, LEAKED);
    case NewJob | StartJob(_) | FinishJob(_) | CancelJob(_) =>
    case _ =>
      var p := OneMoves(s, e, Next(s, e));
      SumUpdate(s.workers, e.w, p, LEAKED);
  }

  /** After the first fault no exclusive job ever gets the background lock again. */
  lemma FaultBlocksJobs(size: nat, before: seq<Event>, after: seq<Event>, j: nat)
    requires Legal(Initial(size), before) && Faults(before) > 0
    requires Legal(Exec(Initial(size), before), after)
    ensures !Enabled(Exec(Exec(Initial(size), before), after), StartJob(j))
  {
    ReachableInv(size, before);
    var mid := Exec(Initial(size), before);
    InvRun(size, mid, after);
    LeaksAccumulate(Initial(size), before);
    LeaksAccumulate(mid, after);
    FaultsNonNegative(after);
    var s := Exec(mid, after);
    SumNonNegative(s.workers, LEAKED);
    SumNonNegative(s.workers, PAST);
    var w :| 0 <= w < |s.workers| && LEAKED(s.workers[w]) != 0;
    assert PAST(s.workers[w]) == 1;
  }

  lemma {:induction false} FaultsNonNegative(run: seq<Event>)
    ensures Faults(run) >= 0
  {
    if run != [] { FaultsNonNegative(run[1..]); }
  }

  /**
   Once all coroutines are done, a waiting job can start exactly when the run had no fault.
   */
  lemma {:induction false} JobsStartIffNoFault(size: nat, run: seq<Event>, j: nat)
    requires Legal(Initial(size), run)
    requires var s := Exec(Initial(size), run);
      && (forall w :: 0 <= w < |s.workers| ==> WORK_LEFT(s.workers[w]) == 0)
      && j < |s.jobs| && s.jobs[j].Queued? && !s.background.ByJob?
    ensures Enabled(Exec(Initial(size), run), StartJob(j)) <==> Faults(run) == 0
  {
    ReachableInv(size, run);
    var s := Exec(Initial(size), run);
    LeaksAccumulate(Initial(size), run);
    FaultsNonNegative(run);
    SumNonNegative(s.workers, LEAKED);
    SumNonNegative(s.workers, PAST);
    forall w | 0 <= w < |s.workers| ensures PAST(s.workers[w]) == LEAKED(s.workers[w]) { DoneOrLeaked(s.workers[w]); }
  }

  lemma DoneOrLeaked(p: WorkerPc)
    requires WORK_LEFT(p) == 0
    ensures PAST(p) == LEAKED(p)
  {
  }
}
