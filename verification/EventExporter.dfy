/** The exporter object: emitting, trimming, delivering one file with retries, and one worker pass. */
module EventExporter {
  import opened EventSpool

  // ---------------------------------------------------------------- one delivery with retries

  datatype Reply = Status(code: int) | NetworkError

  /** What one attempt meets: a stop or a cleared url before the request, the reply, a stop while waiting. */
  datatype Attempt = Attempt(halted: bool, reply: Reply, stopped: bool)

  predicate Success(r: Reply) { r.Status? && 200 <= r.code < 300 }

  function Attempts(maxRetries: int): nat { if maxRetries + 1 > 1 then maxRetries + 1 else 1 }

  /** The attempt that succeeds: the first request answered 2xx, with nothing stopping the retries before it. */
  predicate SucceedsAt(script: seq<Attempt>, maxRetries: int, k: nat) {
    && k < Attempts(maxRetries) && k < |script| && !script[k].halted && Success(script[k].reply)
    && forall j :: 0 <= j < k ==> !script[j].halted && !Success(script[j].reply) && !script[j].stopped
  }

  /** Posts until the first 2xx, at most max_retries + 1 times, and reports how many requests went out. */
  method Post(script: seq<Attempt>, maxRetries: int) returns (delivered: bool, requests: nat)
    requires |script| >= Attempts(maxRetries)
    ensures delivered <==> exists k :: SucceedsAt(script, maxRetries, k)
    ensures delivered ==> requests > 0 && SucceedsAt(script, maxRetries, requests - 1)
    ensures requests <= |script| && requests <= if maxRetries > 0 then maxRetries + 1 else 1
    ensures delivered <==> requests > 0 && script[requests - 1].reply.Status? && 200 <= script[requests - 1].reply.code <= 299
    ensures !delivered && (forall j :: 0 <= j < |script| ==> !script[j].halted && !script[j].stopped) ==>
      requests == if maxRetries > 0 then maxRetries + 1 else 1
    ensures forall j :: 0 <= j < requests ==> !script[j].halted && (j < requests - 1 ==> !script[j].stopped && !Success(script[j].reply))
  {
    var attempts := Attempts(maxRetries);
    delivered, requests := false, 0;
    for attempt := 0 to attempts
      invariant requests == attempt
      invariant forall j :: 0 <= j < attempt ==> !script[j].halted && !Success(script[j].reply)
      invariant forall j :: 0 <= j < attempt && j < attempts - 1 ==> !script[j].stopped
    {
      if script[attempt].halted {
        assert forall k: nat :: SucceedsAt(script, maxRetries, k) ==> k <= attempt;
        return;
      }
      requests := requests + 1;
      if Success(script[attempt].reply) {
        assert SucceedsAt(script, maxRetries, attempt);
        return true, requests;
      }
      if attempt < attempts - 1 && script[attempt].stopped {
        assert forall k: nat :: SucceedsAt(script, maxRetries, k) ==> k <= attempt;
        return;
      }
    }
  }

  // ---------------------------------------------------------------- the exporter

  datatype Delivery = Delivered | DeliveredUnlinkRaised | NotDelivered

  function StepOf(d: Delivery): Step {
    match d
    case Delivered => Ack
    case DeliveredUnlinkRaised => AckLost
    case NotDelivered => GiveUp
  }

  /** What one delivery meets. */
  datatype Conditions = Conditions(script: seq<Attempt>, readable: bool, unlinks: bool)

  /** A delivery that leaves nothing behind: readable, answered 2xx in time, and unlinked. */
  ghost predicate Works(c: Conditions, maxRetries: int) {
    c.readable && c.unlinks && exists k :: SucceedsAt(c.script, maxRetries, k)
  }

  /** Of the first i files, those whose unlink raises. */
  function PassedOver(files: seq<File>, i: nat, stuck: set<nat>): seq<File>
    requires i <= |files|
  {
    if i == 0 then []
    else PassedOver(files, i - 1, stuck) + if files[i - 1].name in stuck then [files[i - 1]] else []
  }

  /** The total once the others of the first i files are gone. */
  function TotalAfter(files: seq<File>, i: nat, stuck: set<nat>): int
    requires i <= |files|
  {
    if i == 0 then Total(files)
    else TotalAfter(files, i - 1, stuck) - if files[i - 1].name in stuck then 0 else files[i - 1].size
  }

  /** Files go from the oldest on, exactly until the total fits; only those that cannot be unlinked are passed over. */
  predicate TrimmedAt(files: seq<File>, limit: nat, stuck: set<nat>, i: nat) {
    && i <= |files| && (i == |files| || TotalAfter(files, i, stuck) <= limit)
    && forall j :: 0 <= j < i ==> TotalAfter(files, j, stuck) > limit
  }

  ghost predicate Trimmed(files: seq<File>, limit: nat, stuck: set<nat>, kept: seq<File>) {
    exists i: nat :: TrimmedAt(files, limit, stuck, i) && kept == PassedOver(files, i, stuck) + files[i..]
  }

  lemma ExecCons(s: State, st: Step, run: seq<Step>)
    requires Enabled(s, st) && Legal(Next(s, st), run)
    ensures Legal(s, [st] + run) && Exec(s, [st] + run) == Exec(Next(s, st), run)
  {
    assert ([st] + run)[1..] == run;
  }

  /** When every unlink works, what remains is the longest tail that fits. */
  lemma TrimmedIsLongestFit(files: seq<File>, limit: nat, kept: seq<File>)
    requires Trimmed(files, limit, {}, kept)
    ensures LongestFit(files, kept, limit)
  {
    var i: nat :| TrimmedAt(files, limit, {}, i) && kept == PassedOver(files, i, {}) + files[i..];
    TotalOfTail(files, i);
    OverfullBefore(files, i, limit);
    assert kept == files[i..] && (i == |files| ==> kept == []);
  }

  lemma OverfullBefore(files: seq<File>, i: nat, limit: nat)
    requires i <= |files| && forall j :: 0 <= j < i ==> TotalAfter(files, j, {}) > limit
    ensures Overfull(files, i, limit)
  {
    forall j | 0 <= j < i ensures Total(files[j..]) > limit { TotalOfTail(files, j); }
  }

  lemma {:induction false} TotalOfTail(files: seq<File>, i: nat)
    requires i <= |files|
    ensures TotalAfter(files, i, {}) == Total(files[i..]) && PassedOver(files, i, {}) == []
  {
    if i == 0 {
      assert files[0..] == files;
    } else {
      TotalOfTail(files, i - 1);
      assert files[i - 1..][1..] == files[i..];
    }
  }

  predicate ThereFrom(files: seq<File>, i: nat, spool: map<nat, nat>) {
    forall k :: i <= k < |files| ==> files[k].name in spool
  }

  lemma ThereNext(files: seq<File>, i: nat, spool: map<nat, nat>, after: map<nat, nat>)
    requires Sorted(files) && i < |files| && ThereFrom(files, i, spool)
    requires after == spool || after == spool - {files[i].name}
    ensures ThereFrom(files, i + 1, after)
  {
  }

  /** Of the listed files, those before n are gone and the others are there. */
  predicate GoneBefore(files: seq<File>, n: nat, spool: map<nat, nat>) {
    forall k :: 0 <= k < |files| ==> (files[k].name in spool <==> k >= n)
  }

  lemma GoneOneMore(files: seq<File>, n: nat, spool: map<nat, nat>)
    requires Sorted(files) && n < |files| && GoneBefore(files, n, spool)
    ensures GoneBefore(files, n + 1, spool - {files[n].name})
  {
  }

  lemma ListedAreThere(listing: seq<File>, spool: map<nat, nat>)
    requires IsListing(listing, spool)
    ensures Sorted(listing) && ThereFrom(listing, 0, spool)
  {
    assert forall k :: 0 <= k < |listing| ==> listing[k] in listing;
  }

  lemma ReadyToSend(start: State, run: seq<Step>)
    requires Inv(start) && Legal(start, run) && Exec(start, run).phase.Sending? && Exec(start, run).phase.next == 0
    ensures var s := Exec(start, run); Sorted(s.phase.files) && GoneBefore(s.phase.files, 0, s.spool)
  {
    RunInv(start, run);
  }

  class Exporter {
    var spool: map<nat, nat>
    ghost var published: seq<nat>
    ghost var gone: seq<nat>
    ghost var acked: set<nat>
    ghost var hits: multiset<nat>
    ghost var lost: multiset<nat>

    ghost function Value(phase: Phase): State
      reads this
    {
      State(phase, spool, published, gone, acked, hits, lost)
    }

    constructor ()
      ensures Value(Idle) == EMPTY
    {
      spool, published, gone, acked, hits, lost := map[], [], [], {}, multiset{}, multiset{};
    }

    /** Publishing is one rename, so an event is in the listing completely or not at all. */
    method Emit(f: File, enabled: bool, renames: bool, ghost phase: Phase)
      requires f.name !in published
      modifies this
      ensures Value(phase) ==
        if enabled && renames then Next(old(Value(phase)), Step.Emit(f)) else old(Value(phase))
    {
      if enabled && renames {
        spool := spool[f.name := f.size];
        published := published + [f.name];
      }
    }

    /** One turn of the trim loop, appended to the run so far. */
    method TrimFile(files: seq<File>, i: nat, kept: seq<File>, total: int, limit: nat, unlinks: bool,
                    ghost start: State, ghost before: seq<Step>)
      returns (newKept: seq<File>, newTotal: int, ghost run: seq<Step>)
      requires i < |files| && total > limit && files[i].name in spool
      requires Legal(start, before) && Exec(start, before) == Value(Trimming(limit, files, i, kept, total))
      modifies this
      ensures Legal(start, run) && Exec(start, run) == Value(Trimming(limit, files, i + 1, newKept, newTotal))
      ensures spool == if unlinks then old(spool) - {files[i].name} else old(spool)
      ensures newKept == (if unlinks then kept else kept + [files[i]])
      ensures newTotal == (if unlinks then total - files[i].size else total)
    {
      ExecAppend(start, before, TrimOne(unlinks));
      run := before + [TrimOne(unlinks)];
      newKept, newTotal := kept, total;
      var f := files[i];
      if unlinks && f.name in spool {
        spool := spool - {f.name};
        gone := gone + [f.name];
        newTotal := total - f.size;
      } else {
        newKept := kept + [f];
      }
    }

    /** The trim loop: from the oldest on, files go until the total fits. It is a run of the machine. */
    method EnforceSpoolLimit(files: seq<File>, limit: nat, stuck: set<nat>) returns (kept: seq<File>, ghost run: seq<Step>)
      requires Sorted(files) && ThereFrom(files, 0, spool)
      modifies this
      ensures var start := old(Value(Trimming(limit, files, 0, [], Total(files))));
        Legal(start, run) && Exec(start, run) == Value(Sending(kept, 0))
      ensures Trimmed(files, limit, stuck, kept)
    {
      ghost var start := Value(Trimming(limit, files, 0, [], Total(files)));
      var total: int := TotalSize(files);
      kept, run := [], [];
      assert files[0..] == files;
      var i := 0;
      while i < |files| && total > limit
        invariant i <= |files| && Legal(start, run) && Exec(start, run) == Value(Trimming(limit, files, i, kept, total))
        invariant ThereFrom(files, i, spool)
        invariant kept == PassedOver(files, i, stuck) && total == TotalAfter(files, i, stuck)
        invariant forall j :: 0 <= j < i ==> TotalAfter(files, j, stuck) > limit
      {
        ghost var was := spool;
        kept, total, run := TrimFile(files, i, kept, total, limit, files[i].name !in stuck, start, run);
        ThereNext(files, i, was, spool);
        i := i + 1;
      }
      ExecAppend(start, run, TrimDone);
      run := run + [TrimDone];
      assert TrimmedAt(files, limit, stuck, i);
      kept := kept + files[i..];
    }

    /** One delivery: the file goes only after a 2xx, and only if the unlink works. */
    method Deliver(files: seq<File>, next: nat, c: Conditions, maxRetries: int) returns (d: Delivery)
      requires next < |files| && |c.script| >= Attempts(maxRetries)
      modifies this
      ensures files[next].name in old(spool) ==>
        (d.NotDelivered? <==> !c.readable || !(exists k :: SucceedsAt(c.script, maxRetries, k)))
      ensures d.Delivered? <==> Works(c, maxRetries) || files[next].name !in old(spool)
      ensures spool == if d.Delivered? then old(spool) - {files[next].name} else old(spool)
      ensures Next(old(Value(Sending(files, next))), StepOf(d)) == Value(if d.Delivered? then Sending(files, next + 1) else Idle)
    {
      var name := files[next].name;
      if name !in spool { return Delivered; }
      if !c.readable { return NotDelivered; }
      var ok, _ := Post(c.script, maxRetries);
      if !ok { return NotDelivered; }
      hits := hits + multiset{name};
      if c.unlinks {
        spool := spool - {name};
        gone := gone + [name];
        acked := acked + {name};
        return Delivered;
      }
      lost := lost + multiset{name};
      return DeliveredUnlinkRaised;
    }

    /**
     Deliveries go on until one does not work, the worker is stopped (no more conditions) or all is
     done. The files before that point are gone, and the loop is a run of the machine.
     */
    method DeliverAll(files: seq<File>, conditions: seq<Conditions>, maxRetries: int, ghost start: State, ghost before: seq<Step>)
      returns (delivered: nat, ghost run: seq<Step>)
      requires Legal(start, before) && Exec(start, before) == Value(Sending(files, 0))
      requires Sorted(files) && GoneBefore(files, 0, spool)
      requires forall c :: c in conditions ==> |c.script| >= Attempts(maxRetries)
      modifies this
      ensures Legal(start, run) && Exec(start, run) == Value(Idle)
      ensures Reached(files, conditions, maxRetries, delivered)
      ensures GoneBefore(files, delivered, spool)
    {
      run := before;
      delivered := 0;
      while delivered < |files| && delivered < |conditions|
        invariant delivered <= |files| && delivered <= |conditions|
        invariant Legal(start, run) && Exec(start, run) == Value(Sending(files, delivered))
        invariant forall k :: 0 <= k < delivered ==> Works(conditions[k], maxRetries)
        invariant GoneBefore(files, delivered, spool)
      {
        GoneOneMore(files, delivered, spool);
        var d := Deliver(files, delivered, conditions[delivered], maxRetries);
        ExecAppend(start, run, StepOf(d));
        run := run + [StepOf(d)];
        if !d.Delivered? { return; }
        delivered := delivered + 1;
      }
      ghost var last := if delivered == |files| then PassDone else GiveUp;
      ExecAppend(start, run, last);
      run := run + [last];
    }

    /**
     One round of the worker: trim, then deliver as far as it works. It is a run of the machine, so
     everything proved of all runs holds of it.
     */
    method RunPass(listing: seq<File>, limit: nat, stuck: set<nat>, conditions: seq<Conditions>, maxRetries: int)
      returns (files: seq<File>, delivered: nat, ghost run: seq<Step>)
      requires Inv(Value(Idle)) && IsListing(listing, spool)
      requires forall c :: c in conditions ==> |c.script| >= Attempts(maxRetries)
      modifies this
      ensures Legal(old(Value(Idle)), run) && Exec(old(Value(Idle)), run) == Value(Idle)
      ensures Trimmed(listing, limit, stuck, files)
      ensures Reached(files, conditions, maxRetries, delivered)
      ensures GoneBefore(files, delivered, spool)
    {
      ghost var start := Value(Idle);
      ListedAreThere(listing, spool);
      files, run := EnforceSpoolLimit(listing, limit, stuck);
      ExecCons(start, Begin(limit, listing), run);
      run := [Begin(limit, listing)] + run;
      ReadyToSend(start, run);
      delivered, run := DeliverAll(files, conditions, maxRetries, start, run);
    }
  }

  /** The deliveries before this point work; the one at it does not, if there is one. */
  ghost predicate Reached(files: seq<File>, conditions: seq<Conditions>, maxRetries: int, delivered: nat) {
    && delivered <= |files| && delivered <= |conditions|
    && (forall k :: 0 <= k < delivered ==> Works(conditions[k], maxRetries))
    && (delivered < |files| && delivered < |conditions| ==> !Works(conditions[delivered], maxRetries))
  }

  method TotalSize(files: seq<File>) returns (total: nat)
    ensures total == Total(files)
  {
    total := 0;
    for i := 0 to |files|
      invariant total + Total(files[i..]) == Total(files)
    {
      assert files[i..][1..] == files[i + 1..];
      total := total + files[i].size;
    }
  }
}
