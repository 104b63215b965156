/** The inbox methods of an Anima, updating its directories and counters in place. */
module InboxMixin {
  import opened SeqFilter
  import opened InboxLedger

  /** The comprehension `[item for item in items if test(item)]`. */
  method Select(items: seq<Message>, test: Message -> bool) returns (r: seq<Message>)
    ensures r == Filter(items, test)
  {
    r := [];
    for i := 0 to |items|
      invariant r == Filter(items[..i], test)
    {
      FilterNext(items, i, test);
      if test(items[i]) {
        r := r + [items[i]];
      }
    }
    assert items[..|items|] == items;
  }

  method SplitDelegationItems(items: seq<Message>) returns (delegation: seq<Message>, nonDelegation: seq<Message>)
    ensures delegation == Filter(items, Delegated()) && nonDelegation == Filter(items, Ordinary())
  {
    delegation, nonDelegation := [], [];
    for i := 0 to |items|
      invariant delegation == Filter(items[..i], Delegated()) && nonDelegation == Filter(items[..i], Ordinary())
    {
      FilterNext(items, i, Delegated());
      FilterNext(items, i, Ordinary());
      if items[i].delegation && items[i].taskId != "" {
        delegation := delegation + [items[i]];
      } else {
        nonDelegation := nonDelegation + [items[i]];
      }
    }
    assert items[..|items|] == items;
  }

  /** Messages whose task is on record are handled; the rest goes back to the model. */
  method SplitByTask(items: seq<Message>, c: Call) returns (handled: seq<Message>, unresolved: seq<Message>)
    ensures handled == Filter(items, Known(c)) && unresolved == Filter(items, Unknown(c))
  {
    handled, unresolved := [], [];
    for i := 0 to |items|
      invariant handled == Filter(items[..i], Known(c)) && unresolved == Filter(items[..i], Unknown(c))
    {
      FilterNext(items, i, Known(c));
      FilterNext(items, i, Unknown(c));
      if items[i].taskId !in c.knownTasks {
        unresolved := unresolved + [items[i]];
      } else {
        handled := handled + [items[i]];
      }
    }
    assert items[..|items|] == items;
  }

  /** Items past the limit lose their counter; the others stay for the model. */
  method SplitStale(items: seq<Message>, presented: map<string, nat>)
    returns (stale: seq<Message>, kept: seq<Message>, remaining: map<string, nat>)
    ensures stale == Filter(items, Exhausted(presented)) && kept == Filter(items, Fresh(presented))
    ensures remaining == Drop(presented, stale)
  {
    stale, kept, remaining := [], [], presented;
    for i := 0 to |items|
      invariant stale == Filter(items[..i], Exhausted(presented)) && kept == Filter(items[..i], Fresh(presented))
      invariant remaining == Drop(presented, stale)
    {
      FilterNext(items, i, Exhausted(presented));
      FilterNext(items, i, Fresh(presented));
      if Count(presented, items[i].name) > MAX_INBOX_RETRIES {
        ghost var before := stale;
        stale := stale + [items[i]];
        assert stale[..|stale| - 1] == before;
        remaining := remaining - {items[i].name};
      } else {
        kept := kept + [items[i]];
      }
    }
    assert items[..|items|] == items;
  }

  method BumpAll(counts: map<string, nat>, items: seq<Message>) returns (bumped: map<string, nat>)
    ensures bumped == Bump(counts, items)
  {
    bumped := counts;
    for i := 0 to |items|
      invariant bumped == Bump(counts, items[..i])
    {
      var key := items[i].name;
      assert items[..i + 1][..i] == items[..i];
      bumped := bumped[key := Count(bumped, key) + 1];
    }
    assert items[..|items|] == items;
  }

  method UnbumpAll(counts: map<string, nat>, items: seq<Message>) returns (restored: map<string, nat>)
    ensures restored == Unbump(counts, items)
  {
    restored := counts;
    for i := 0 to |items|
      invariant restored == Unbump(counts, items[..i])
    {
      assert items[..i + 1][..i] == items[..i];
      var key := items[i].name;
      if key in restored {
        if restored[key] > 1 {
          restored := restored[key := restored[key] - 1];
        } else {
          restored := restored - {key};
        }
      }
    }
    assert items[..|items|] == items;
  }

  /**
   `log` lists the file operations of the current call and `start` the box it began with, so a call
   that is cut off leaves the box of a prefix.
   */
  class Inbox {
    var inbox: seq<Message>
    var counts: map<string, nat>
    var processed: seq<Message>
    var overflow: seq<Message>
    ghost var start: Box
    ghost var log: seq<Op>

    function Value(): Box
      reads this
    {
      Box(inbox, counts, processed, overflow)
    }

    ghost predicate Valid()
      reads this
    {
      Value() == Apply(start, log)
    }

    constructor ()
      ensures Valid() && Value() == EMPTY && log == []
    {
      inbox, counts, processed, overflow := [], map[], [], [];
      start, log := EMPTY, [];
    }

    /** Moves the given messages that are still in the inbox, one rename each. */
    method ArchivePaths(items: seq<Message>)
      requires Valid()
      modifies `inbox, `processed, `log
      ensures Valid() && log == old(log) + Moves(items)
    {
      for i := 0 to |items|
        invariant Valid() && log == old(log) + Moves(items[..i])
      {
        MovesNext(items, i);
        DoneAfter(start, log, Move(items[i]));
        log := log + [Move(items[i])];
        if items[i] in inbox {
          inbox := Select(inbox, Others(items[i]));
          processed := processed + [items[i]];
        }
      }
      assert items[..|items|] == items;
    }

    method WriteOverflow(items: seq<Message>)
      requires Valid()
      modifies `overflow, `log
      ensures Valid() && log == old(log) + Copies(items)
    {
      for i := 0 to |items|
        invariant Valid() && log == old(log) + Copies(items[..i])
      {
        CopiesNext(items, i);
        DoneAfter(start, log, Copy(items[i]));
        log := log + [Copy(items[i])];
        overflow := overflow + [items[i]];
      }
      assert items[..|items|] == items;
    }

    method WriteCounts(newCounts: map<string, nat>)
      requires Valid()
      modifies `counts, `log
      ensures Valid() && log == old(log) + [Store(newCounts)] && counts == newCounts
    {
      DoneAfter(start, log, Store(newCounts));
      log := log + [Store(newCounts)];
      counts := newCounts;
    }

    /** Messages of tasks on record are handled; the others stay among the items. */
    method HandleDelegations(received: seq<Message>, c: Call) returns (items: seq<Message>)
      requires Valid()
      modifies `inbox, `processed, `log
      ensures Valid() && log == old(log) + Moves(Filter(Filter(received, Delegated()), Known(c)))
      ensures items == Filter(received, Ordinary()) + Filter(Filter(received, Delegated()), Unknown(c))
    {
      var delegation, others := SplitDelegationItems(received);
      var handled, unresolved := SplitByTask(delegation, c);
      ArchivePaths(handled);
      items := others + unresolved;
    }

    /** Self notices wait while something external is there. */
    method DeferNotices(items: seq<Message>, c: Call) returns (rest: seq<Message>)
      requires Valid()
      modifies `inbox, `processed, `log
      ensures var notices := Filter(items, SelfNotice(c));
        var defers := Filter(items, External()) != [] && notices != [] && |notices| < |items|;
        && Valid() && log == old(log) + Moves(if defers then notices else [])
        && rest == if defers then Filter(items, NotSelfNotice(c)) else items
    {
      rest := items;
      var external := Select(items, External());
      var deferred := Select(items, SelfNotice(c));
      if external != [] && deferred != [] && |deferred| < |items| {
        ArchivePaths(deferred);
        rest := Select(items, NotSelfNotice(c));
      } else {
        assert Moves([]) == [];
      }
    }

    /** Overflow copies of a burst, handled delegations, deferred notices; the rest are the candidates. */
    method SortIncoming(c: Call) returns (items: seq<Message>)
      requires Valid() && log == [] && start == Value()
      modifies `inbox, `processed, `overflow, `log
      ensures Valid() && log == Sorting(start, c) && items == Candidates(start, c)
    {
      var received := Select(inbox, Visible(c));
      var rest := Select(received, NonCritical());
      var copies := if c.tracked && |rest| > NON_CRITICAL_LIMIT then rest[NON_CRITICAL_LIMIT..] else [];
      WriteOverflow(copies);
      assert log == if c.tracked then Copies(BurstCopies(start, c)) else [];
      items := HandleDelegations(received, c);
      assert items == Undelegated(start, c);
      items := DeferNotices(items, c);
    }

    method ProcessInboxMessages(c: Call) returns (kept: seq<Message>)
      requires Valid() && log == [] && start == Value()
      modifies `inbox, `processed, `overflow, `counts, `log
      ensures Valid() && log == Pickup(start, c) && kept == Kept(start, c)
    {
      if inbox == [] {
        assert Candidates(start, c) == [] by { NothingWaiting(start, c); }
        return [];
      }
      var items := SortIncoming(c);
      if !c.tracked {
        assert Pickup(start, c) == Sorting(start, c);
        return items;
      }
      kept := PresentItems(items, c);
    }

    /** Raise and prune the counters, give up the items past the limit, write what is left. */
    method PresentItems(items: seq<Message>, c: Call) returns (kept: seq<Message>)
      requires Valid() && c.tracked && start.inbox != [] && counts == start.counts
      requires log == Sorting(start, c) && items == Candidates(start, c)
      modifies `inbox, `processed, `overflow, `counts, `log
      ensures Valid() && log == Pickup(start, c) && kept == Kept(start, c)
    {
      var counted := BumpAll(counts, items);
      SortingPrunesAlike(start, c);
      counted := Prune(counted, inbox);
      var stale;
      stale, kept, counted := SplitStale(items, counted);
      WriteOverflow(stale);
      ArchivePaths(stale);
      WriteCounts(counted);
      PickupInParts(start, c, log);
    }

    method UndoFailedPresentation(items: seq<Message>)
      requires Valid()
      modifies `counts, `log
      ensures Valid() && log == old(log) + [Store(Unbump(old(counts), items))]
    {
      var restored := UnbumpAll(counts, items);
      WriteCounts(restored);
    }

    /** What becomes of the shown messages once the model has run. */
    method FinishCycle(kept: seq<Message>, fastReplied: bool, c: Call)
      requires Valid()
      modifies `inbox, `processed, `counts, `log
      ensures Valid() && log == old(log) + Conclusion(old(counts), kept, fastReplied, c)
    {
      if kept == [] {
        return;
      }
      if c.outcome.Crashed? {
        UndoFailedPresentation(kept);
      } else if fastReplied {
        ArchivePaths(kept);
      } else if c.tracked {
        if c.outcome.Failed? {
          UndoFailedPresentation(kept);
        } else if c.outcome.Answered? {
          ArchivePaths(kept);
        } else {
          var allExhausted := forall i :: 0 <= i < |kept| ==> Count(counts, kept[i].name) > MAX_INBOX_RETRIES;
          if allExhausted {
            ArchivePaths(kept);
          }
        }
      }
    }

    /** A call performs exactly its operations, in their order. */
    method ProcessInboxMessage(c: Call)
      modifies this
      ensures Valid() && start == old(Value()) && log == Ops(start, c)
    {
      start, log := Value(), [];
      var kept := ProcessInboxMessages(c);
      PickupCounts(start, c);
      FinishCycle(kept, |kept| == 1 && kept[0].probe && c.fastReplySent, c);
    }
  }

  /** Whatever cuts a call off, the box is then that of the ledger's step. */
  lemma CutOffIsPrefix(b: Box, c: Call, performed: seq<Op>)
    requires performed <= Ops(b, c) && |performed| == Min(c.cut, |Ops(b, c)|)
    ensures Apply(b, performed) == Processed(b, c)
  {
    assert performed == Ops(b, c)[..|performed|];
  }

  lemma DoneAfter(b: Box, ops: seq<Op>, op: Op)
    ensures Apply(b, ops + [op]) == Do(Apply(b, ops), op)
  {
    assert (ops + [op])[..|ops|] == ops;
  }

  lemma MovesNext(items: seq<Message>, i: nat)
    requires i < |items|
    ensures Moves(items[..i + 1]) == Moves(items[..i]) + [Move(items[i])]
  {
  }

  lemma CopiesNext(items: seq<Message>, i: nat)
    requires i < |items|
    ensures Copies(items[..i + 1]) == Copies(items[..i]) + [Copy(items[i])]
  {
  }

  lemma NothingWaiting(b: Box, c: Call)
    requires b.inbox == []
    ensures Candidates(b, c) == []
  {
    assert Received(b, c) == [];
  }

  lemma PickupInParts(b: Box, c: Call, log: seq<Op>)
    requires c.tracked && b.inbox != []
    requires log == Sorting(b, c) + Copies(Stale(b, c)) + Moves(Stale(b, c)) + [Store(Counted(b, c))]
    ensures log == Pickup(b, c)
  {
  }

  lemma {:induction false} ArchiveBeside(b: Box, items: seq<Message>, overflow: seq<Message>)
    ensures Archive(b.(overflow := overflow), items) == Archive(b, items).(overflow := overflow)
  {
    if items != [] {
      assert Moves(items)[..|items| - 1] == Moves(items[..|items| - 1]);
      ArchiveBeside(b, items[..|items| - 1], overflow);
    }
  }

  /** Overflow copies do not change which files are left in the inbox. */
  lemma SortingPrunesAlike(b: Box, c: Call)
    ensures Apply(b, Sorting(b, c)).inbox == Sorted(b, c).inbox
  {
    var copies := if c.tracked then BurstCopies(b, c) else [];
    var b1 := Apply(b, Copies(copies));
    CopiesKeep(b, copies);
    assert (if c.tracked then Copies(BurstCopies(b, c)) else []) == Copies(copies);
    ApplyConcat(b, Copies(copies), Moves(Handled(b, c)));
    ApplyConcat(b, Copies(copies) + Moves(Handled(b, c)), Moves(Deferred(b, c)));
    ArchiveBeside(b, Handled(b, c), b1.overflow);
    ArchiveBeside(Archive(b, Handled(b, c)), Deferred(b, c), b1.overflow);
  }

  lemma PickupCounts(b: Box, c: Call)
    ensures Prepared(b, c).counts == CountsLater(b, c)
  {
    if b.inbox != [] {
      PickupIsGathering(b, c);
      GatheringKeepsCounts(b, c);
      CountsUntouched(b, Gathering(b, c));
    }
  }
}
