/** Where each message of an inbox ends up, told from the message, the inbox and the call alone. */
module InboxFates {
  import opened SeqFilter
  import opened InboxLedger

  // ---------------------------------------------------------------- who is deferred

  /** Left for the model: not from a suppressed sender, and no delegation of a task on record. */
  predicate Open(b: Box, c: Call, m: Message) {
    m in b.inbox && m.sender !in c.suppressed && !(m.delegation && m.taskId != "" && m.taskId in c.knownTasks)
  }

  predicate OwnNotice(c: Call, m: Message) { m.source.Anima? && m.sender == c.me && m.completionNotice }

  predicate FromOutside(m: Message) { m.source.Slack? || m.source.Chatwork? }

  ghost predicate SomeoneOutside(b: Box, c: Call) { exists x :: Open(b, c, x) && FromOutside(x) }

  lemma OpenIsUndelegated(b: Box, c: Call)
    ensures forall m :: m in Undelegated(b, c) <==> Open(b, c, m)
  {
    forall m ensures m in Undelegated(b, c) <==> Open(b, c, m) { Groups(b, c, m); }
  }

  lemma FoundIff(items: seq<Message>, p: Message -> bool)
    ensures Filter(items, p) != [] <==> exists x :: x in items && p(x)
  {
    FilterMember(items, p);
    if Filter(items, p) != [] {
      var x := Filter(items, p)[0];
      assert x in Filter(items, p);
    }
  }

  /** Own notices are deferred exactly if there are any and an open message from outside is waiting. */
  lemma DefersIff(b: Box, c: Call)
    ensures Defers(b, c) <==> SomeoneOutside(b, c) && exists x :: Open(b, c, x) && OwnNotice(c, x)
  {
    var items := Undelegated(b, c);
    OpenIsUndelegated(b, c);
    DeferralOf(items, c);
    FoundIff(items, External());
    FoundIff(items, SelfNotice(c));
    if SomeoneOutside(b, c) {
      var x :| Open(b, c, x) && FromOutside(x);
      assert x in items && External()(x);
    }
    if exists x :: Open(b, c, x) && OwnNotice(c, x) {
      var x :| Open(b, c, x) && OwnNotice(c, x);
      assert x in items && SelfNotice(c)(x);
    }
  }

  /** A message from outside is no own notice, so own notices are never all there is. */
  lemma DeferralOf(items: seq<Message>, c: Call)
    ensures Filter(items, External()) != [] ==> |Filter(items, SelfNotice(c))| < |items|
  {
    FilterSplit(items, SelfNotice(c), NotSelfNotice(c));
    SplitSizes(items, Filter(items, SelfNotice(c)), Filter(items, NotSelfNotice(c)));
    FoundIff(items, External());
    FoundIff(items, NotSelfNotice(c));
    if Filter(items, External()) != [] {
      var x :| x in items && External()(x);
      assert NotSelfNotice(c)(x);
    }
  }

  lemma SplitSizes(s: seq<Message>, p: seq<Message>, q: seq<Message>)
    requires multiset(s) == multiset(p) + multiset(q)
    ensures |s| == |p| + |q|
  {
    assert |multiset(s)| == |s| && |multiset(p)| == |p| && |multiset(q)| == |q|;
  }

  /**
   A message is archived unseen, as deferred, exactly if it is the Anima's own completion notice and some
   open message comes from Slack or Chatwork.
   */
  lemma DeferredExactly(b: Box, c: Call, m: Message)
    ensures m in Deferred(b, c) <==>
      && m in b.inbox && m.sender !in c.suppressed && !(m.delegation && m.taskId != "" && m.taskId in c.knownTasks)
      && m.source.Anima? && m.sender == c.me && m.completionNotice
      && exists x :: Open(b, c, x) && (x.source.Slack? || x.source.Chatwork?)
    ensures m in Candidates(b, c) <==> Open(b, c, m) && !(OwnNotice(c, m) && SomeoneOutside(b, c))
  {
    Groups(b, c, m);
    DefersIff(b, c);
    OpenIsUndelegated(b, c);
  }

  /** Nobody else's message is ever deferred. */
  lemma OthersNeverDeferred(b: Box, c: Call, m: Message)
    requires m.sender != c.me
    ensures m !in Deferred(b, c)
  {
    DeferredExactly(b, c, m);
  }

  // ---------------------------------------------------------------- nothing is lost

  /** Whatever the operations, and wherever they stop: what has left the inbox is in processed, and nothing else is new there. */
  lemma {:induction false} NothingLost(b: Box, ops: seq<Op>, m: Message)
    requires UniqueNames(b.inbox)
    ensures m in Apply(b, ops).inbox ==> m in b.inbox
    ensures m in Apply(b, ops).processed <==> m in b.processed || (m in b.inbox && m !in Apply(b, ops).inbox)
  {
    if ops != [] {
      var shorter := ops[..|ops| - 1];
      NothingLost(b, shorter, m);
      OpsShrinkInbox(b, shorter);
      var op := ops[|ops| - 1];
      if op.Move? { MoveKeeps(Apply(b, shorter), op.message); }
    }
  }

  predicate Copied(ops: seq<Op>, m: Message) { exists i :: 0 <= i < |ops| && ops[i] == Copy(m) }

  lemma {:induction false} OverflowIs(b: Box, ops: seq<Op>, m: Message)
    ensures m in Apply(b, ops).overflow <==> m in b.overflow || Copied(ops, m)
  {
    if ops != [] {
      var shorter, op := ops[..|ops| - 1], ops[|ops| - 1];
      OverflowIs(b, shorter, m);
      CopiedEither(shorter, [op], m);
      assert ops == shorter + [op] && [op][0] == op;
    }
  }

  lemma CopiedEither(v: seq<Op>, w: seq<Op>, m: Message)
    ensures Copied(v + w, m) <==> Copied(v, m) || Copied(w, m)
  {
    if Copied(v, m) {
      var i :| 0 <= i < |v| && v[i] == Copy(m);
      assert (v + w)[i] == Copy(m);
    }
    if Copied(w, m) {
      var i :| 0 <= i < |w| && w[i] == Copy(m);
      assert (v + w)[|v| + i] == Copy(m);
    }
  }

  lemma CopiesCopy(items: seq<Message>, m: Message)
    ensures Copied(Copies(items), m) <==> m in items
    ensures !Copied(Moves(items), m)
  {
    if m in items {
      var i :| 0 <= i < |items| && items[i] == m;
      assert Copies(items)[i] == Copy(m);
    }
  }

  // ---------------------------------------------------------------- a burst

  /** How many visible messages that delegate nothing stand before place i. */
  function Before(b: Box, c: Call, i: nat): nat
    requires i <= |b.inbox|
  {
    if i == 0 then 0
    else Before(b, c, i - 1) + if b.inbox[i - 1].sender !in c.suppressed && !b.inbox[i - 1].delegation then 1 else 0
  }

  lemma {:induction false} BeforeIs(b: Box, c: Call, i: nat)
    requires i <= |b.inbox|
    ensures Before(b, c, i) == |Filter(Filter(b.inbox[..i], Visible(c)), NonCritical())|
  {
    if i > 0 {
      BeforeIs(b, c, i - 1);
      FilterNext(b.inbox, i - 1, Visible(c));
      var f, x := Filter(b.inbox[..i - 1], Visible(c)), b.inbox[i - 1];
      if Visible(c)(x) {
        assert (f + [x])[..|f|] == f;
      } else {
        assert Filter(b.inbox[..i], Visible(c)) == f;
      }
    }
  }

  lemma {:induction false} FilterPlace(s: seq<Message>, p: Message -> bool, i: nat)
    requires i < |s|
    ensures |Filter(s[..i], p)| <= |Filter(s, p)| && Filter(s, p)[..|Filter(s[..i], p)|] == Filter(s[..i], p)
    ensures p(s[i]) ==> |Filter(s[..i], p)| < |Filter(s, p)| && Filter(s, p)[|Filter(s[..i], p)|] == s[i]
  {
    var n := |s| - 1;
    if i < n {
      FilterPlace(s[..n], p, i);
      assert s[..n][..i] == s[..i];
    }
  }

  lemma BurstPlace(b: Box, c: Call, i: nat, rest: seq<Message>)
    requires i < |b.inbox| && Visible(c)(b.inbox[i]) && NonCritical()(b.inbox[i]) && rest == Filter(Received(b, c), NonCritical())
    ensures Before(b, c, i) < |rest| && rest[Before(b, c, i)] == b.inbox[i]
  {
    FilterPlace(b.inbox, Visible(c), i);
    FilterPlace(Received(b, c), NonCritical(), |Filter(b.inbox[..i], Visible(c))|);
    BeforeIs(b, c, i);
  }

  /** In a tracked pickup a message is copied out of a burst exactly if ten others like it stand before it. */
  lemma BurstExactly(b: Box, c: Call, i: nat)
    requires UniqueNames(b.inbox) && i < |b.inbox|
    ensures b.inbox[i] in BurstCopies(b, c) <==>
      b.inbox[i].sender !in c.suppressed && !b.inbox[i].delegation && Before(b, c, i) >= NON_CRITICAL_LIMIT
  {
    var m, rest := b.inbox[i], Filter(Received(b, c), NonCritical());
    FilterUnique(b.inbox, Visible(c));
    FilterUnique(Received(b, c), NonCritical());
    if m.sender !in c.suppressed && !m.delegation {
      BurstPlace(b, c, i, rest);
      PlaceInTail(rest, Before(b, c, i), m);
    } else {
      NotInBurst(b, c, m, rest);
    }
  }

  lemma NotInBurst(b: Box, c: Call, m: Message, rest: seq<Message>)
    requires rest == Filter(Received(b, c), NonCritical()) && (m.sender in c.suppressed || m.delegation)
    ensures m !in BurstCopies(b, c)
  {
    FilterMember(b.inbox, Visible(c));
    FilterMember(Received(b, c), NonCritical());
    assert forall x :: x in BurstCopies(b, c) ==> x in rest;
  }

  lemma PlaceInTail(rest: seq<Message>, k: nat, m: Message)
    requires UniqueNames(rest) && k < |rest| && rest[k] == m
    ensures |rest| > NON_CRITICAL_LIMIT ==> (m in rest[NON_CRITICAL_LIMIT..] <==> k >= NON_CRITICAL_LIMIT)
  {
    if |rest| > NON_CRITICAL_LIMIT && k >= NON_CRITICAL_LIMIT { assert rest[NON_CRITICAL_LIMIT..][k - NON_CRITICAL_LIMIT] == m; }
  }

  // ---------------------------------------------------------------- every fate

  /** Shown to the model: open, not deferred, and in a tracked call presented fewer than three times before. */
  ghost predicate Shown(b: Box, c: Call, m: Message) {
    && Open(b, c, m) && !(OwnNotice(c, m) && SomeoneOutside(b, c))
    && !(c.tracked && Count(b.counts, m.name) >= MAX_INBOX_RETRIES)
  }

  ghost predicate GivenUp(b: Box, c: Call, m: Message) {
    && Open(b, c, m) && !(OwnNotice(c, m) && SomeoneOutside(b, c))
    && c.tracked && Count(b.counts, m.name) >= MAX_INBOX_RETRIES
  }

  lemma ShownIsKept(b: Box, c: Call, m: Message)
    requires UniqueNames(b.inbox)
    ensures m in Kept(b, c) <==> Shown(b, c, m)
    ensures m in Stale(b, c) <==> GivenUp(b, c, m)
  {
    DeferredExactly(b, c, m);
    FateGroups(b, c, m);
    if m in Candidates(b, c) {
      SortedInbox(b, c);
      PresentedCounts(b, c, m);
    }
  }

  /** A probe that is the only message shown was answered at once. */
  ghost predicate AnsweredAtOnce(b: Box, c: Call, m: Message) {
    c.fastReplySent && m.probe && forall x :: Shown(b, c, x) ==> x == m
  }

  lemma FastIffAtOnce(b: Box, c: Call, m: Message)
    requires UniqueNames(b.inbox) && m in Kept(b, c)
    ensures FastReplied(b, c) <==> AnsweredAtOnce(b, c, m)
  {
    StaleAreCandidates(b, c);
    AloneIff(Kept(b, c), m);
    forall x ensures x in Kept(b, c) <==> Shown(b, c, x) { ShownIsKept(b, c, x); }
  }

  lemma AloneIff(kept: seq<Message>, m: Message)
    requires UniqueNames(kept) && m in kept
    ensures |kept| == 1 <==> forall x :: x in kept ==> x == m
    ensures |kept| == 1 ==> kept[0] == m
  {
    if forall x :: x in kept ==> x == m {
      assert forall i :: 0 <= i < |kept| ==> kept[i] in kept;
      OnlyOne(kept, m);
    }
  }

  lemma OnlyOne(kept: seq<Message>, m: Message)
    requires UniqueNames(kept) && m in kept && forall i :: 0 <= i < |kept| ==> kept[i] == m
    ensures |kept| == 1
  {
    assert |kept| > 1 ==> kept[0].name != kept[1].name;
  }

  /** A shown message leaves the inbox at the end of the call: its reply was sent, at once or by the model. */
  ghost predicate Settled(b: Box, c: Call, m: Message) {
    !c.outcome.Crashed? && (AnsweredAtOnce(b, c, m) || (c.tracked && c.outcome.Answered?))
  }

  lemma WholeCall(b: Box, c: Call)
    requires RunsToEnd(b, c)
    ensures Processed(b, c) == Apply(Prepared(b, c), Ending(b, c))
  {
    assert Ops(b, c)[..|Ops(b, c)|] == Ops(b, c);
    ApplyConcat(b, Pickup(b, c), Ending(b, c));
  }

  lemma EndingArchives(b: Box, c: Call, m: Message)
    requires UniqueNames(b.inbox) && RunsToEnd(b, c)
    ensures m in Processed(b, c).inbox <==> m in Prepared(b, c).inbox && !(Shown(b, c, m) && Settled(b, c, m))
  {
    WholeCall(b, c);
    PreparedBox(b, c, m);
    ShownIsKept(b, c, m);
    if c.tracked { NeverAllExhausted(b, c); }
    if m in Kept(b, c) { FastIffAtOnce(b, c, m); }
    EndingMoves(b, c, m, Prepared(b, c), Kept(b, c), FastReplied(b, c));
  }

  lemma EndingMoves(b: Box, c: Call, m: Message, p: Box, kept: seq<Message>, fast: bool)
    requires kept == Kept(b, c) && fast == FastReplied(b, c)
    requires UniqueNames(p.inbox) && (c.tracked ==> !AllExhausted(CountsLater(b, c), kept))
    ensures m in Apply(p, Ending(b, c)).inbox <==>
      m in p.inbox && !(m in kept && !c.outcome.Crashed? && (fast || (c.tracked && c.outcome.Answered?)))
  {
    ConclusionMoves(p, CountsLater(b, c), kept, fast, c, m);
  }

  lemma ConclusionMoves(p: Box, counts: map<string, nat>, kept: seq<Message>, fast: bool, c: Call, m: Message)
    requires UniqueNames(p.inbox) && (c.tracked ==> !AllExhausted(counts, kept))
    ensures m in Apply(p, Conclusion(counts, kept, fast, c)).inbox <==>
      m in p.inbox && !(m in kept && !c.outcome.Crashed? && (fast || (c.tracked && c.outcome.Answered?)))
  {
    ArchiveKeeps(p, kept);
    var e := Conclusion(counts, kept, fast, c);
    assert [Store(Unbump(counts, kept))][..0] == [];
  }

  /**
   After a call that runs to its end, a message waits exactly if its sender is suppressed, or it was shown and
   not settled. All others have been moved to processed.
   */
  lemma WhereItGoes(b: Box, c: Call, m: Message)
    requires UniqueNames(b.inbox) && RunsToEnd(b, c) && m in b.inbox
    ensures m in Processed(b, c).inbox <==> m.sender in c.suppressed || (Shown(b, c, m) && !Settled(b, c, m))
    ensures m in Processed(b, c).processed <==> m in b.processed || m !in Processed(b, c).inbox
  {
    EndingArchives(b, c, m);
    PreparedBox(b, c, m);
    Groups(b, c, m);
    ShownIsKept(b, c, m);
    DeferredExactly(b, c, m);
    NothingLost(b, Ops(b, c)[..Min(c.cut, |Ops(b, c)|)], m);
  }

  lemma PickupCopies(b: Box, c: Call, m: Message)
    ensures Copied(Pickup(b, c), m) <==> b.inbox != [] && c.tracked && (m in BurstCopies(b, c) || m in Stale(b, c))
  {
    var first := if c.tracked then Copies(BurstCopies(b, c)) else [];
    CopiesCopy(BurstCopies(b, c), m);
    CopiesCopy(Handled(b, c), m);
    CopiesCopy(Deferred(b, c), m);
    CopiesCopy(Stale(b, c), m);
    CopiedEither(first, Moves(Handled(b, c)), m);
    CopiedEither(first + Moves(Handled(b, c)), Moves(Deferred(b, c)), m);
    var stale := if c.tracked then Copies(Stale(b, c)) + Moves(Stale(b, c)) else [];
    CopiedEither(Copies(Stale(b, c)), Moves(Stale(b, c)), m);
    CopiedEither(Sorting(b, c), stale, m);
    var last := if c.tracked then [Store(Counted(b, c))] else [];
    CopiedEither(Gathering(b, c), last, m);
  }

  lemma EndingCopiesNothing(counts: map<string, nat>, kept: seq<Message>, fast: bool, c: Call, m: Message)
    ensures !Copied(Conclusion(counts, kept, fast, c), m)
  {
    CopiesCopy(kept, m);
  }

  /** The overflow gains exactly the messages given up and the tail of a burst, in tracked calls. */
  lemma OverflowExactly(b: Box, c: Call, i: nat)
    requires UniqueNames(b.inbox) && RunsToEnd(b, c) && i < |b.inbox|
    ensures var m := b.inbox[i];
      var burst := m.sender !in c.suppressed && !m.delegation && Before(b, c, i) >= NON_CRITICAL_LIMIT;
      m in Processed(b, c).overflow <==> m in b.overflow || (c.tracked && (GivenUp(b, c, m) || burst))
  {
    var m := b.inbox[i];
    assert Ops(b, c)[..|Ops(b, c)|] == Ops(b, c);
    OverflowIs(b, Ops(b, c), m);
    CopiedEither(Pickup(b, c), Ending(b, c), m);
    PickupCopies(b, c, m);
    EndingCopiesNothing(CountsLater(b, c), Kept(b, c), FastReplied(b, c), c, m);
    BurstExactly(b, c, i);
    ShownIsKept(b, c, m);
  }
}
