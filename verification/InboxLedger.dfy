/**
 Inbox processing of one Anima: which unread messages reach the model, how often each has been
 presented without an answer, and when it is given up and archived.
 */
module InboxLedger {
  import opened SeqFilter

  const MAX_INBOX_RETRIES := 3
  const NON_CRITICAL_LIMIT := 10

  datatype Source = Anima | Slack | Chatwork | OtherSource

  /** An unread file; `taskId` is the delegated task it names, "" for none. */
  datatype Message = Message(
    name: string, sender: string, delegation: bool, taskId: string, source: Source, completionNotice: bool, probe: bool)

  /** The inbox directory, the retry counters, the processed directory and the overflow copies. */
  datatype Box = Box(inbox: seq<Message>, counts: map<string, nat>, processed: seq<Message>, overflow: seq<Message>)

  datatype Outcome =
    | Failed        // the cycle reports an error or a failure reason
    | Answered      // text or a reply was produced
    | EmptyReply
    | Crashed       // an exception after the inbox was prepared

  /**
   What one call of process_inbox_message meets: budget state, suppression, task queue, model, and
   the number of file operations after which it is cancelled or killed, if it gets that far.
   */
  datatype Call = Call(me: string, tracked: bool, suppressed: set<string>, knownTasks: set<string>,
                       fastReplySent: bool, outcome: Outcome, cut: nat)

  /** One change on disk: an overflow copy, a move to processed, a rewrite of the counter file. */
  datatype Op = Copy(message: Message) | Move(message: Message) | Store(counts: map<string, nat>)

  function Count(counts: map<string, nat>, name: string): nat { if name in counts then counts[name] else 0 }

  // ---------------------------------------------------------------- who goes where

  function Suppressed(c: Call): Message -> bool { (m: Message) => m.sender in c.suppressed }
  function Visible(c: Call): Message -> bool { (m: Message) => m.sender !in c.suppressed }
  function Delegated(): Message -> bool { (m: Message) => m.delegation && m.taskId != "" }
  function Ordinary(): Message -> bool { (m: Message) => !(m.delegation && m.taskId != "") }
  function Known(c: Call): Message -> bool { (m: Message) => m.taskId in c.knownTasks }
  function Unknown(c: Call): Message -> bool { (m: Message) => m.taskId !in c.knownTasks }
  function External(): Message -> bool { (m: Message) => m.source.Slack? || m.source.Chatwork? }
  function SelfNotice(c: Call): Message -> bool { (m: Message) => m.source.Anima? && m.sender == c.me && m.completionNotice }
  function NotSelfNotice(c: Call): Message -> bool { (m: Message) => !(m.source.Anima? && m.sender == c.me && m.completionNotice) }
  function NonCritical(): Message -> bool { (m: Message) => !m.delegation }
  function Exhausted(counts: map<string, nat>): Message -> bool { (m: Message) => Count(counts, m.name) > MAX_INBOX_RETRIES }
  function Fresh(counts: map<string, nat>): Message -> bool { (m: Message) => Count(counts, m.name) <= MAX_INBOX_RETRIES }

  function Received(b: Box, c: Call): seq<Message> { Filter(b.inbox, Visible(c)) }
  function Handled(b: Box, c: Call): seq<Message> { Filter(Filter(Received(b, c), Delegated()), Known(c)) }
  function Undelegated(b: Box, c: Call): seq<Message> {
    Filter(Received(b, c), Ordinary()) + Filter(Filter(Received(b, c), Delegated()), Unknown(c))
  }

  predicate Defers(b: Box, c: Call) {
    var items := Undelegated(b, c);
    && Filter(items, External()) != [] && Filter(items, SelfNotice(c)) != []
    && |Filter(items, SelfNotice(c))| < |items|
  }
  function Deferred(b: Box, c: Call): seq<Message> {
    if Defers(b, c) then Filter(Undelegated(b, c), SelfNotice(c)) else []
  }
  function Candidates(b: Box, c: Call): seq<Message> {
    if Defers(b, c) then Filter(Undelegated(b, c), NotSelfNotice(c)) else Undelegated(b, c)
  }

  // ---------------------------------------------------------------- counters and archive

  function Bump(counts: map<string, nat>, items: seq<Message>): map<string, nat> {
    if items == [] then counts
    else
      var before := Bump(counts, items[..|items| - 1]);
      var key := items[|items| - 1].name;
      before[key := Count(before, key) + 1]
  }

  function Prune(counts: map<string, nat>, inbox: seq<Message>): map<string, nat> {
    map k | k in counts && (exists i :: 0 <= i < |inbox| && inbox[i].name == k) :: counts[k]
  }

  function Drop(counts: map<string, nat>, items: seq<Message>): map<string, nat> {
    if items == [] then counts else Drop(counts, items[..|items| - 1]) - {items[|items| - 1].name}
  }

  /** Take one presentation back from every item. */
  function Unbump(counts: map<string, nat>, items: seq<Message>): map<string, nat> {
    if items == [] then counts
    else
      var before := Unbump(counts, items[..|items| - 1]);
      var key := items[|items| - 1].name;
      if key !in before then before
      else if before[key] > 1 then before[key := before[key] - 1]
      else before - {key}
  }

  // ---------------------------------------------------------------- the operations of a call

  function Others(m: Message): Message -> bool { (x: Message) => x != m }

  function Do(b: Box, op: Op): Box {
    match op
    case Copy(m) => b.(overflow := b.overflow + [m])
    case Move(m) => if m in b.inbox then b.(inbox := Filter(b.inbox, Others(m)), processed := b.processed + [m]) else b
    case Store(counts) => b.(counts := counts)
  }

  function Apply(b: Box, ops: seq<Op>): Box {
    if ops == [] then b else Do(Apply(b, ops[..|ops| - 1]), ops[|ops| - 1])
  }

  function Copies(items: seq<Message>): seq<Op> { seq(|items|, i requires 0 <= i < |items| => Copy(items[i])) }
  function Moves(items: seq<Message>): seq<Op> { seq(|items|, i requires 0 <= i < |items| => Move(items[i])) }

  function Archive(b: Box, items: seq<Message>): Box { Apply(b, Moves(items)) }

  /** Everything up to the counters: suppression, delegation and deferral. */
  function Sorted(b: Box, c: Call): Box {
    Archive(Archive(b, Handled(b, c)), Deferred(b, c))
  }

  function BurstCopies(b: Box, c: Call): seq<Message> {
    var rest := Filter(Received(b, c), NonCritical());
    if |rest| > NON_CRITICAL_LIMIT then rest[NON_CRITICAL_LIMIT..] else []
  }

  function Presented(b: Box, c: Call): map<string, nat> {
    Prune(Bump(b.counts, Candidates(b, c)), Sorted(b, c).inbox)
  }

  function Stale(b: Box, c: Call): seq<Message> {
    if c.tracked then Filter(Candidates(b, c), Exhausted(Presented(b, c))) else []
  }
  function Kept(b: Box, c: Call): seq<Message> {
    if c.tracked then Filter(Candidates(b, c), Fresh(Presented(b, c))) else Candidates(b, c)
  }

  /** The counters a tracked pickup writes. */
  function Counted(b: Box, c: Call): map<string, nat> { Drop(Presented(b, c), Stale(b, c)) }

  function Sorting(b: Box, c: Call): seq<Op> {
    (if c.tracked then Copies(BurstCopies(b, c)) else []) + Moves(Handled(b, c)) + Moves(Deferred(b, c))
  }

  /** All a pickup does before it writes the counters. */
  function Gathering(b: Box, c: Call): seq<Op> {
    Sorting(b, c) + if c.tracked then Copies(Stale(b, c)) + Moves(Stale(b, c)) else []
  }

  /** The file operations of _process_inbox_messages; an empty inbox is left alone. */
  function Pickup(b: Box, c: Call): seq<Op> {
    if b.inbox == [] then []
    else Gathering(b, c) + if c.tracked then [Store(Counted(b, c))] else []
  }

  predicate FastReplied(b: Box, c: Call) {
    |Kept(b, c)| == 1 && Kept(b, c)[0].probe && c.fastReplySent
  }

  predicate AllExhausted(counts: map<string, nat>, items: seq<Message>) {
    items != [] && forall i :: 0 <= i < |items| ==> Count(counts, items[i].name) > MAX_INBOX_RETRIES
  }

  /** What the rest of the call does with the messages that were kept, given the counters on disk. */
  function Conclusion(counts: map<string, nat>, kept: seq<Message>, fastReplied: bool, c: Call): seq<Op> {
    if kept == [] then []
    else if c.outcome.Crashed? then [Store(Unbump(counts, kept))]
    else if fastReplied then Moves(kept)
    else if !c.tracked then []
    else match c.outcome
      case Failed => [Store(Unbump(counts, kept))]
      case Answered => Moves(kept)
      case _ => if AllExhausted(counts, kept) then Moves(kept) else []
  }

  function CountsLater(b: Box, c: Call): map<string, nat> {
    if c.tracked && b.inbox != [] then Counted(b, c) else b.counts
  }

  function Ending(b: Box, c: Call): seq<Op> { Conclusion(CountsLater(b, c), Kept(b, c), FastReplied(b, c), c) }

  /** All file operations of process_inbox_message, in order. */
  function Ops(b: Box, c: Call): seq<Op> { Pickup(b, c) + Ending(b, c) }

  function Min(a: nat, b: nat): nat { if a < b then a else b }

  /** The box after a call: all of its operations, or those before it was cancelled or killed. */
  function Processed(b: Box, c: Call): Box { Apply(b, Ops(b, c)[..Min(c.cut, |Ops(b, c)|)]) }

  /** The box after the whole pickup; Kept(b, c) is what the pickup returns. */
  function Prepared(b: Box, c: Call): Box { Apply(b, Pickup(b, c)) }

  // ---------------------------------------------------------------- the batch is partitioned

  lemma Groups(b: Box, c: Call, m: Message)
    ensures m in Received(b, c) <==> m in b.inbox && m.sender !in c.suppressed
    ensures m in Handled(b, c) <==> m in Received(b, c) && m.delegation && m.taskId != "" && m.taskId in c.knownTasks
    ensures m in Undelegated(b, c) <==> m in Received(b, c) && !(m.delegation && m.taskId != "" && m.taskId in c.knownTasks)
    ensures m in Deferred(b, c) <==> Defers(b, c) && m in Undelegated(b, c) && SelfNotice(c)(m)
    ensures m in Candidates(b, c) <==> m in Undelegated(b, c) && !(Defers(b, c) && SelfNotice(c)(m))
  {
    FilterMember(b.inbox, Visible(c));
    FilterMember(Received(b, c), Delegated());
    FilterMember(Received(b, c), Ordinary());
    FilterMember(Filter(Received(b, c), Delegated()), Known(c));
    FilterMember(Filter(Received(b, c), Delegated()), Unknown(c));
    FilterMember(Undelegated(b, c), SelfNotice(c));
    FilterMember(Undelegated(b, c), NotSelfNotice(c));
  }

  lemma FateGroups(b: Box, c: Call, m: Message)
    ensures m in Stale(b, c) <==> m in Candidates(b, c) && c.tracked && Count(Presented(b, c), m.name) > MAX_INBOX_RETRIES
    ensures m in Kept(b, c) <==> m in Candidates(b, c) && !(c.tracked && Count(Presented(b, c), m.name) > MAX_INBOX_RETRIES)
  {
    FilterMember(Candidates(b, c), Exhausted(Presented(b, c)));
    FilterMember(Candidates(b, c), Fresh(Presented(b, c)));
  }

  /**
   Every received message has exactly one fate: suppressed, handled as a delegation, deferred as a
   self notice, given up as stale, or kept for the model.
   */
  lemma Partition(b: Box, c: Call)
    ensures multiset(b.inbox) == multiset(Filter(b.inbox, Suppressed(c))) + multiset(Handled(b, c))
      + multiset(Deferred(b, c)) + multiset(Stale(b, c)) + multiset(Kept(b, c))
  {
    FilterSplit(b.inbox, Suppressed(c), Visible(c));
    DelegationSplit(Received(b, c), c);
    DeferralSplit(b, c);
    StaleSplit(b, c);
  }

  lemma DeferralSplit(b: Box, c: Call)
    ensures multiset(Undelegated(b, c)) == multiset(Deferred(b, c)) + multiset(Candidates(b, c))
  {
    FilterSplit(Undelegated(b, c), SelfNotice(c), NotSelfNotice(c));
  }

  lemma StaleSplit(b: Box, c: Call)
    ensures multiset(Candidates(b, c)) == multiset(Stale(b, c)) + multiset(Kept(b, c))
  {
    FilterSplit(Candidates(b, c), Exhausted(Presented(b, c)), Fresh(Presented(b, c)));
  }

  lemma DelegationSplit(items: seq<Message>, c: Call)
    ensures multiset(items) == multiset(Filter(Filter(items, Delegated()), Known(c)))
      + multiset(Filter(items, Ordinary()) + Filter(Filter(items, Delegated()), Unknown(c)))
  {
    FilterSplit(items, Delegated(), Ordinary());
    FilterSplit(Filter(items, Delegated()), Known(c), Unknown(c));
  }

  // ---------------------------------------------------------------- what the counters do

  predicate UniqueNames(s: seq<Message>) { forall i, j :: 0 <= i < j < |s| ==> s[i].name != s[j].name }
  predicate Named(s: seq<Message>, name: string) { exists i :: 0 <= i < |s| && s[i].name == name }

  lemma {:induction false} FilterUnique(s: seq<Message>, p: Message -> bool)
    requires UniqueNames(s)
    ensures UniqueNames(Filter(s, p))
  {
    if s != [] {
      var shorter := s[..|s| - 1];
      FilterUnique(shorter, p);
      FilterMember(shorter, p);
      var f := Filter(shorter, p);
      forall i | 0 <= i < |f| ensures f[i].name != s[|s| - 1].name {
        assert f[i] in f;
      }
    }
  }

  lemma SameName(s: seq<Message>, x: Message, y: Message)
    requires UniqueNames(s) && x in s && y in s && x.name == y.name
    ensures x == y
  {
  }

  /** Messages with different names still have different names after regrouping. */
  lemma CandidatesUnique(b: Box, c: Call)
    requires UniqueNames(b.inbox)
    ensures UniqueNames(Candidates(b, c))
    ensures forall m :: m in Candidates(b, c) ==> m in b.inbox
  {
    var d := Filter(Received(b, c), Delegated());
    FilterUnique(b.inbox, Visible(c));
    FilterUnique(Received(b, c), Ordinary());
    FilterUnique(Received(b, c), Delegated());
    FilterUnique(d, Unknown(c));
    FilterMember(b.inbox, Visible(c));
    FilterMember(Received(b, c), Ordinary());
    FilterMember(Received(b, c), Delegated());
    FilterMember(d, Unknown(c));
    forall x, y | x in Filter(Received(b, c), Ordinary()) && y in Filter(d, Unknown(c)) ensures x.name != y.name {
      if x.name == y.name { SameName(b.inbox, x, y); }
    }
    FilterUnique(Undelegated(b, c), NotSelfNotice(c));
    FilterMember(Undelegated(b, c), NotSelfNotice(c));
  }

  lemma {:induction false} BumpCounts(counts: map<string, nat>, items: seq<Message>, name: string)
    requires UniqueNames(items)
    ensures Count(Bump(counts, items), name) == Count(counts, name) + if Named(items, name) then 1 else 0
  {
    if items != [] {
      var shorter := items[..|items| - 1];
      BumpCounts(counts, shorter, name);
      NamedLast(items, name);
    }
  }

  lemma NamedLast(items: seq<Message>, name: string)
    requires items != []
    ensures Named(items, name) <==> Named(items[..|items| - 1], name) || items[|items| - 1].name == name
  {
    var shorter := items[..|items| - 1];
    if Named(shorter, name) {
      var i :| 0 <= i < |shorter| && shorter[i].name == name;
      assert items[i].name == name;
    }
  }

  lemma {:induction false} UnbumpCounts(counts: map<string, nat>, items: seq<Message>, name: string)
    requires UniqueNames(items)
    ensures Count(Unbump(counts, items), name)
         == if Named(items, name) && Count(counts, name) > 0 then Count(counts, name) - 1 else Count(counts, name)
    ensures Unbump(counts, items).Keys <= counts.Keys
  {
    if items != [] {
      var shorter := items[..|items| - 1];
      UnbumpCounts(counts, shorter, name);
      UnbumpCounts(counts, shorter, items[|items| - 1].name);
      NamedLast(items, name);
    }
  }

  lemma {:induction false} DropCounts(counts: map<string, nat>, items: seq<Message>, name: string)
    ensures Count(Drop(counts, items), name) == if Named(items, name) then 0 else Count(counts, name)
    ensures Drop(counts, items).Keys <= counts.Keys
  {
    if items != [] {
      DropCounts(counts, items[..|items| - 1], name);
      NamedLast(items, name);
    }
  }

  // ---------------------------------------------------------------- what operations keep

  lemma {:induction false} ApplyConcat(b: Box, v: seq<Op>, w: seq<Op>)
    ensures Apply(b, v + w) == Apply(Apply(b, v), w)
  {
    if w == [] {
      assert v + w == v;
    } else {
      assert (v + w)[..|v + w| - 1] == v + w[..|w| - 1];
      ApplyConcat(b, v, w[..|w| - 1]);
    }
  }

  lemma MoveKeeps(b: Box, m: Message)
    requires UniqueNames(b.inbox)
    ensures UniqueNames(Do(b, Move(m)).inbox)
    ensures forall x :: x in Do(b, Move(m)).inbox <==> x in b.inbox && x != m
  {
    FilterUnique(b.inbox, Others(m));
    FilterMember(b.inbox, Others(m));
  }

  /** Operations only take messages out of the inbox. */
  lemma {:induction false} OpsShrinkInbox(b: Box, ops: seq<Op>)
    requires UniqueNames(b.inbox)
    ensures UniqueNames(Apply(b, ops).inbox) && forall x :: x in Apply(b, ops).inbox ==> x in b.inbox
  {
    if ops != [] {
      OpsShrinkInbox(b, ops[..|ops| - 1]);
      var op := ops[|ops| - 1];
      if op.Move? { MoveKeeps(Apply(b, ops[..|ops| - 1]), op.message); }
    }
  }

  predicate NoStore(ops: seq<Op>) { forall i :: 0 <= i < |ops| ==> !ops[i].Store? }

  lemma {:induction false} CountsUntouched(b: Box, ops: seq<Op>)
    requires NoStore(ops)
    ensures Apply(b, ops).counts == b.counts
  {
    if ops != [] { CountsUntouched(b, ops[..|ops| - 1]); }
  }

  lemma {:induction false} CopiesKeep(b: Box, items: seq<Message>)
    ensures Apply(b, Copies(items)) == b.(overflow := b.overflow + items)
  {
    if items != [] {
      assert Copies(items)[..|items| - 1] == Copies(items[..|items| - 1]);
      CopiesKeep(b, items[..|items| - 1]);
      assert items == items[..|items| - 1] + [items[|items| - 1]];
    }
  }

  /** Archiving takes exactly the given messages out of the inbox, and those that were there to processed. */
  lemma {:induction false} ArchiveKeeps(b: Box, items: seq<Message>)
    requires UniqueNames(b.inbox)
    ensures UniqueNames(Archive(b, items).inbox)
    ensures forall m :: m in Archive(b, items).inbox <==> m in b.inbox && m !in items
    ensures forall m :: m in Archive(b, items).processed <==> m in b.processed || (m in b.inbox && m in items)
    ensures Archive(b, items).counts == b.counts && Archive(b, items).overflow == b.overflow
  {
    if items != [] {
      var shorter, last := items[..|items| - 1], items[|items| - 1];
      assert Moves(items)[..|items| - 1] == Moves(shorter);
      ArchiveKeeps(b, shorter);
      MoveKeeps(Archive(b, shorter), last);
      assert items == shorter + [last];
    }
  }

  /** What is left in the inbox after sorting: neither handled nor deferred. */
  lemma SortedInbox(b: Box, c: Call)
    requires UniqueNames(b.inbox)
    ensures var s := Sorted(b, c);
      && UniqueNames(s.inbox) && s.counts == b.counts
      && (forall m :: m in s.inbox <==> m in b.inbox && m !in Handled(b, c) && m !in Deferred(b, c))
      && (forall m :: m in Candidates(b, c) ==> m in s.inbox)
  {
    ArchiveKeeps(b, Handled(b, c));
    ArchiveKeeps(Archive(b, Handled(b, c)), Deferred(b, c));
    forall m | m in Candidates(b, c) ensures m in Sorted(b, c).inbox {
      Groups(b, c, m);
    }
  }

  /** After presentation a candidate's counter is one up; every other waiting message keeps its own. */
  lemma PresentedCounts(b: Box, c: Call, m: Message)
    requires UniqueNames(b.inbox) && m in Sorted(b, c).inbox
    ensures Count(Presented(b, c), m.name) == Count(b.counts, m.name) + if m in Candidates(b, c) then 1 else 0
  {
    SortedInbox(b, c);
    CandidatesUnique(b, c);
    BumpCounts(b.counts, Candidates(b, c), m.name);
    NamedIsMember(b.inbox, Candidates(b, c), m);
    NamedIsMember(b.inbox, Sorted(b, c).inbox, m);
  }

  lemma NamedIsMember(s: seq<Message>, items: seq<Message>, m: Message)
    requires UniqueNames(s) && m in s && forall x :: x in items ==> x in s
    ensures Named(items, m.name) <==> m in items
  {
    if Named(items, m.name) {
      var i :| 0 <= i < |items| && items[i].name == m.name;
      assert items[i] in items;
      SameName(s, items[i], m);
    }
  }

  // ---------------------------------------------------------------- one call

  /** The call got through its pickup, counters included. */
  predicate PickedUp(b: Box, c: Call) { c.cut >= |Pickup(b, c)| }

  predicate RollsBack(b: Box, c: Call) { Undoes(Kept(b, c), FastReplied(b, c), c) }
  predicate RolledBack(b: Box, c: Call) { RollsBack(b, c) && c.cut > |Pickup(b, c)| }

  /** The call that spends a presentation of m: it recorded one and did not take it back. */
  predicate Spent(b: Box, c: Call, m: Message) {
    c.tracked && m in Kept(b, c) && PickedUp(b, c) && !RolledBack(b, c)
  }

  /** A budget-blocked call that raises takes back a presentation it never recorded. */
  predicate TakenBack(b: Box, c: Call, m: Message) {
    !c.tracked && m in Kept(b, c) && RolledBack(b, c) && Count(b.counts, m.name) > 0
  }

  predicate RunsToEnd(b: Box, c: Call) { c.cut >= |Ops(b, c)| }

  predicate Bounded(b: Box) {
    forall i :: 0 <= i < |b.inbox| ==> Count(b.counts, b.inbox[i].name) <= MAX_INBOX_RETRIES
  }

  lemma StaleAreCandidates(b: Box, c: Call)
    requires UniqueNames(b.inbox)
    ensures forall x :: x in Stale(b, c) ==> x in b.inbox
    ensures UniqueNames(Kept(b, c)) && forall x :: x in Kept(b, c) ==> x in b.inbox
  {
    CandidatesUnique(b, c);
    FilterMember(Candidates(b, c), Exhausted(Presented(b, c)));
    FilterMember(Candidates(b, c), Fresh(Presented(b, c)));
    FilterUnique(Candidates(b, c), Fresh(Presented(b, c)));
  }

  lemma NoStoreConcat(v: seq<Op>, w: seq<Op>)
    requires NoStore(v) && NoStore(w)
    ensures NoStore(v + w)
  {
  }

  lemma GatheringKeepsCounts(b: Box, c: Call)
    ensures NoStore(Gathering(b, c))
  {
    var first := if c.tracked then Copies(BurstCopies(b, c)) else [];
    NoStoreConcat(first, Moves(Handled(b, c)));
    NoStoreConcat(first + Moves(Handled(b, c)), Moves(Deferred(b, c)));
    NoStoreConcat(Copies(Stale(b, c)), Moves(Stale(b, c)));
    NoStoreConcat(Sorting(b, c), if c.tracked then Copies(Stale(b, c)) + Moves(Stale(b, c)) else []);
  }

  /** The box after sorting, in the order of the operations. */
  lemma SortingBox(b: Box, c: Call)
    requires UniqueNames(b.inbox)
    ensures var s := Apply(b, Sorting(b, c));
      && UniqueNames(s.inbox) && s.counts == b.counts
      && (forall m :: m in s.inbox <==> m in Sorted(b, c).inbox)
      && (forall m :: m in b.processed ==> m in s.processed)
  {
    var copies := if c.tracked then BurstCopies(b, c) else [];
    var first := if c.tracked then Copies(BurstCopies(b, c)) else [];
    assert first == Copies(copies);
    var b1 := Apply(b, first);
    CopiesKeep(b, copies);
    var b2 := Archive(b1, Handled(b, c));
    ArchiveKeeps(b1, Handled(b, c));
    ArchiveKeeps(b2, Deferred(b, c));
    ApplyConcat(b, first, Moves(Handled(b, c)));
    ApplyConcat(b, first + Moves(Handled(b, c)), Moves(Deferred(b, c)));
    ArchiveKeeps(b, Handled(b, c));
    ArchiveKeeps(Archive(b, Handled(b, c)), Deferred(b, c));
  }

  lemma GatheringBox(b: Box, c: Call)
    requires UniqueNames(b.inbox)
    ensures var g := Apply(b, Gathering(b, c));
      && UniqueNames(g.inbox) && g.counts == b.counts
      && (forall m :: m in g.inbox <==> m in Sorted(b, c).inbox && m !in Stale(b, c))
      && (forall m :: m in Stale(b, c) && m in Sorted(b, c).inbox ==> m in g.processed && m in g.overflow)
  {
    SortingBox(b, c);
    if c.tracked {
      var s := Apply(b, Sorting(b, c));
      var r := Apply(s, Copies(Stale(b, c)));
      CopiesKeep(s, Stale(b, c));
      ArchiveKeeps(r, Stale(b, c));
      ApplyConcat(s, Copies(Stale(b, c)), Moves(Stale(b, c)));
      ApplyConcat(b, Sorting(b, c), Copies(Stale(b, c)) + Moves(Stale(b, c)));
    } else {
      assert Gathering(b, c) == Sorting(b, c);
    }
  }

  lemma PreparedBox(b: Box, c: Call, m: Message)
    requires UniqueNames(b.inbox)
    ensures var p := Prepared(b, c);
      && UniqueNames(p.inbox) && p.counts == CountsLater(b, c)
      && (m in p.inbox <==> m in b.inbox && m !in Handled(b, c) && m !in Deferred(b, c) && m !in Stale(b, c))
      && (m in Kept(b, c) ==> m in p.inbox)
      && (m in p.inbox ==> Count(p.counts, m.name) == Count(b.counts, m.name) + if c.tracked && m in Kept(b, c) then 1 else 0)
      && (m in Stale(b, c) ==> m in p.processed && m in p.overflow)
  {
    SortedInbox(b, c);
    FateGroups(b, c, m);
    Groups(b, c, m);
    if b.inbox != [] {
      GatheringBox(b, c);
      PickupIsGathering(b, c);
      if c.tracked && m in Sorted(b, c).inbox {
        PresentedCounts(b, c, m);
        DropCounts(Presented(b, c), Stale(b, c), m.name);
        StaleAreCandidates(b, c);
        NamedIsMember(b.inbox, Stale(b, c), m);
      }
    }
  }

  lemma PickupIsGathering(b: Box, c: Call)
    requires b.inbox != []
    ensures Prepared(b, c) == Apply(b, Gathering(b, c)).(counts := if c.tracked then Counted(b, c) else Apply(b, Gathering(b, c)).counts)
  {
    if c.tracked {
      assert Pickup(b, c)[..|Pickup(b, c)| - 1] == Gathering(b, c);
    } else {
      assert Pickup(b, c) == Gathering(b, c);
    }
  }

  /** A message given up is exactly a candidate whose counter has reached the limit. */
  lemma StaleAtLimit(b: Box, c: Call, m: Message)
    requires UniqueNames(b.inbox) && Bounded(b) && c.tracked && m in Candidates(b, c)
    ensures m in Stale(b, c) <==> Count(b.counts, m.name) == MAX_INBOX_RETRIES
    ensures m in Stale(b, c) ==> m in Prepared(b, c).processed && m in Prepared(b, c).overflow && m !in Prepared(b, c).inbox
  {
    SortedInbox(b, c);
    PresentedCounts(b, c, m);
    FateGroups(b, c, m);
    PreparedBox(b, c, m);
    var i :| 0 <= i < |b.inbox| && b.inbox[i] == m;
    assert Count(b.counts, m.name) <= MAX_INBOX_RETRIES;
  }

  /** The branch that archives after an empty reply because everything is exhausted is dead code. */
  lemma NeverAllExhausted(b: Box, c: Call)
    requires UniqueNames(b.inbox) && c.tracked
    ensures !AllExhausted(CountsLater(b, c), Kept(b, c))
  {
    if Kept(b, c) != [] {
      var m := Kept(b, c)[0];
      StaleAreCandidates(b, c);
      PreparedBox(b, c, m);
      FateGroups(b, c, m);
      SortedInbox(b, c);
      PresentedCounts(b, c, m);
    }
  }

  /** A call stopped during its pickup has written no counters. */
  lemma PickupCut(b: Box, c: Call)
    requires !PickedUp(b, c)
    ensures Processed(b, c).counts == b.counts
  {
    GatheringKeepsCounts(b, c);
    assert Ops(b, c)[..c.cut] == Gathering(b, c)[..c.cut];
    CountsUntouched(b, Gathering(b, c)[..c.cut]);
  }

  /** A call stopped after its pickup has done the pickup and part of the rest. */
  lemma EndingCut(b: Box, c: Call) returns (j: nat)
    requires PickedUp(b, c)
    ensures j <= |Ending(b, c)| && j <= c.cut - |Pickup(b, c)|
    ensures j == |Ending(b, c)| || j == c.cut - |Pickup(b, c)|
    ensures Processed(b, c) == Apply(Prepared(b, c), Ending(b, c)[..j])
  {
    j := CutApply(b, Pickup(b, c), Ending(b, c), c.cut);
  }

  lemma CutApply(b: Box, v: seq<Op>, w: seq<Op>, cut: nat) returns (j: nat)
    requires cut >= |v|
    ensures j == Min(cut - |v|, |w|) && Apply(b, (v + w)[..Min(cut, |v + w|)]) == Apply(Apply(b, v), w[..j])
  {
    j := Min(cut - |v|, |w|);
    assert (v + w)[..Min(cut, |v + w|)] == v + w[..j];
    ApplyConcat(b, v, w[..j]);
  }

  predicate Undoes(kept: seq<Message>, fastReplied: bool, c: Call) {
    kept != [] && (c.outcome.Crashed? || (c.outcome.Failed? && c.tracked && !fastReplied))
  }

  lemma ConclusionWrites(p: Box, counts: map<string, nat>, kept: seq<Message>, fastReplied: bool, c: Call, j: nat)
    requires j <= |Conclusion(counts, kept, fastReplied, c)|
    ensures var a := Apply(p, Conclusion(counts, kept, fastReplied, c)[..j]);
      if Undoes(kept, fastReplied, c) then
        |Conclusion(counts, kept, fastReplied, c)| == 1 && a == p.(counts := if j > 0 then Unbump(counts, kept) else p.counts)
      else a.counts == p.counts
  {
    var e := Conclusion(counts, kept, fastReplied, c);
    if Undoes(kept, fastReplied, c) {
      assert e[..j] == if j > 0 then [Store(Unbump(counts, kept))] else [];
      assert [Store(Unbump(counts, kept))][..0] == [];
    } else {
      assert NoStore(e);
      CountsUntouched(p, e[..j]);
    }
  }

  /** A call writes no counters before its pickup is complete, and afterwards only a rollback. */
  lemma CallWrites(b: Box, c: Call)
    ensures !PickedUp(b, c) ==> Processed(b, c).counts == b.counts
    ensures PickedUp(b, c) ==>
      Processed(b, c).counts == if RolledBack(b, c) then Unbump(CountsLater(b, c), Kept(b, c)) else Prepared(b, c).counts
    ensures PickedUp(b, c) && RollsBack(b, c) ==> Processed(b, c).inbox == Prepared(b, c).inbox
  {
    if PickedUp(b, c) {
      var j := EndingCut(b, c);
      ConclusionWrites(Prepared(b, c), CountsLater(b, c), Kept(b, c), FastReplied(b, c), c, j);
    } else {
      PickupCut(b, c);
    }
  }

  /**
   One call moves a waiting message's counter up by one exactly if it spent a presentation, and down
   by one exactly if it took one back that it had not recorded.
   */
  lemma CallCounts(b: Box, c: Call, m: Message)
    requires UniqueNames(b.inbox) && m in Processed(b, c).inbox
    ensures m in b.inbox
    ensures Count(Processed(b, c).counts, m.name) ==
      Count(b.counts, m.name) + (if Spent(b, c, m) then 1 else 0) - (if TakenBack(b, c, m) then 1 else 0)
  {
    ProcessedInbox(b, c, m);
    CallWrites(b, c);
    if PickedUp(b, c) {
      PreparedBox(b, c, m);
      StaleAreCandidates(b, c);
      UnbumpCounts(CountsLater(b, c), Kept(b, c), m.name);
      NamedIsMember(b.inbox, Kept(b, c), m);
    }
  }

  lemma ProcessedInbox(b: Box, c: Call, m: Message)
    requires UniqueNames(b.inbox)
    ensures UniqueNames(Processed(b, c).inbox)
    ensures m in Processed(b, c).inbox ==> m in b.inbox && (PickedUp(b, c) ==> m in Prepared(b, c).inbox)
  {
    OpsShrinkInbox(b, Ops(b, c)[..Min(c.cut, |Ops(b, c)|)]);
    if PickedUp(b, c) {
      PreparedBox(b, c, m);
      var j := EndingCut(b, c);
      OpsShrinkInbox(Prepared(b, c), Ending(b, c)[..j]);
    }
  }

  /** Of the endings that undo nothing, only an empty reply leaves the kept messages waiting. */
  lemma ConclusionArchives(p: Box, counts: map<string, nat>, kept: seq<Message>, fastReplied: bool, c: Call, m: Message, a: Box)
    requires UniqueNames(p.inbox) && c.tracked && m in kept && !AllExhausted(counts, kept)
    requires a == Apply(p, Conclusion(counts, kept, fastReplied, c)) && m in a.inbox
    ensures Undoes(kept, fastReplied, c) <==> !(c.outcome.EmptyReply? && !fastReplied)
  {
    ArchiveKeeps(p, kept);
  }

  lemma EndReached(b: Box, c: Call)
    requires RunsToEnd(b, c)
    ensures PickedUp(b, c) && (RolledBack(b, c) <==> RollsBack(b, c))
    ensures Processed(b, c) == Apply(Prepared(b, c), Ending(b, c))
  {
    var j := EndingCut(b, c);
    assert Ending(b, c)[..j] == Ending(b, c);
    ConclusionWrites(Prepared(b, c), CountsLater(b, c), Kept(b, c), FastReplied(b, c), c, 0);
  }

  /** When the call runs to its end, spending means an empty reply; a failed one spends nothing. */
  lemma SpentIsEmptyReply(b: Box, c: Call, m: Message)
    requires UniqueNames(b.inbox) && RunsToEnd(b, c) && m in Processed(b, c).inbox
    ensures Spent(b, c, m) <==> c.tracked && m in Kept(b, c) && c.outcome.EmptyReply? && !FastReplied(b, c)
  {
    EndReached(b, c);
    if c.tracked && m in Kept(b, c) {
      NeverAllExhausted(b, c);
      PreparedBox(b, c, m);
      ConclusionArchives(Prepared(b, c), CountsLater(b, c), Kept(b, c), FastReplied(b, c), c, m, Processed(b, c));
    }
  }

  lemma CountBounded(b: Box, c: Call, m: Message)
    requires UniqueNames(b.inbox) && Bounded(b) && m in Processed(b, c).inbox
    ensures Count(Processed(b, c).counts, m.name) <= MAX_INBOX_RETRIES
  {
    CallCounts(b, c, m);
    var i :| 0 <= i < |b.inbox| && b.inbox[i] == m;
    assert Count(b.counts, b.inbox[i].name) <= MAX_INBOX_RETRIES;
    FateGroups(b, c, m);
    if c.tracked && m in Kept(b, c) { StaleAtLimit(b, c, m); }
  }

  lemma CallBounded(b: Box, c: Call)
    requires UniqueNames(b.inbox) && Bounded(b)
    ensures Bounded(Processed(b, c))
  {
    var a := Processed(b, c);
    forall i | 0 <= i < |a.inbox| ensures Count(a.counts, a.inbox[i].name) <= MAX_INBOX_RETRIES {
      assert a.inbox[i] in a.inbox;
      CountBounded(b, c, a.inbox[i]);
    }
  }

  /** A failed model cycle archives nothing it was shown and gives every counter its value back. */
  lemma FailedCallRestores(b: Box, c: Call, m: Message)
    requires UniqueNames(b.inbox) && RunsToEnd(b, c)
    requires c.tracked && !FastReplied(b, c) && (c.outcome.Failed? || c.outcome.Crashed?)
    ensures m in Kept(b, c) ==> m in Processed(b, c).inbox
    ensures m in Processed(b, c).inbox ==> Count(Processed(b, c).counts, m.name) == Count(b.counts, m.name)
  {
    PreparedBox(b, c, m);
    EndReached(b, c);
    CallWrites(b, c);
    if m in Processed(b, c).inbox { CallCounts(b, c, m); }
  }

  /**
   A budget-blocked call leaves the counters as they are, unless it raises while a message it
   would have shown has one: then that counter is taken down although nothing was presented.
   */
  lemma BlockedCallCounters(b: Box, c: Call)
    requires UniqueNames(b.inbox) && !c.tracked
    ensures Processed(b, c).counts == b.counts
        <==> !(c.outcome.Crashed? && c.cut > |Pickup(b, c)| && exists i :: 0 <= i < |Kept(b, c)| && Kept(b, c)[i].name in b.counts)
  {
    CallWrites(b, c);
    PreparedBox(b, c, Message("", "", false, "", OtherSource, false, false));
    StaleAreCandidates(b, c);
    UnbumpChanges(b.counts, Kept(b, c));
  }

  lemma {:induction false} UnbumpChanges(counts: map<string, nat>, items: seq<Message>)
    requires UniqueNames(items)
    ensures Unbump(counts, items) == counts <==> forall i :: 0 <= i < |items| ==> items[i].name !in counts
  {
    if items != [] {
      var shorter := items[..|items| - 1];
      var last := items[|items| - 1].name;
      UnbumpChanges(counts, shorter);
      UnbumpOthers(counts, shorter, last);
    }
  }

  lemma {:induction false} UnbumpOthers(counts: map<string, nat>, items: seq<Message>, name: string)
    requires !Named(items, name)
    ensures name in Unbump(counts, items) <==> name in counts
    ensures name in counts ==> Unbump(counts, items)[name] == counts[name]
    ensures Unbump(counts, items).Keys <= counts.Keys
  {
    if items != [] {
      NamedLast(items, name);
      UnbumpOthers(counts, items[..|items| - 1], name);
    }
  }

  // ---------------------------------------------------------------- whole runs

  datatype Step = Arrive(message: Message) | Process(call: Call)

  const EMPTY := Box([], map[], [], [])

  predicate Legal(b: Box, s: Step) { s.Arrive? ==> !Named(b.inbox, s.message.name) && !Named(b.processed, s.message.name) }

  function Next(b: Box, s: Step): Box {
    match s
    case Arrive(m) => b.(inbox := b.inbox + [m])
    case Process(c) => Processed(b, c)
  }

  predicate LegalRun(b: Box, run: seq<Step>)
    decreases |run|
  {
    run == [] || (Legal(b, run[0]) && LegalRun(Next(b, run[0]), run[1..]))
  }

  function Exec(b: Box, run: seq<Step>): Box
    decreases |run|
  {
    if run == [] then b else Exec(Next(b, run[0]), run[1..])
  }

  /** In how many calls of the run a presentation of the message was spent. */
  function Spendings(b: Box, run: seq<Step>, m: Message): nat
    decreases |run|
  {
    if run == [] then 0
    else (if run[0].Process? && Spent(b, run[0].call, m) then 1 else 0) + Spendings(Next(b, run[0]), run[1..], m)
  }

  /** In how many calls of the run a presentation was taken back that the call had not recorded. */
  function TakeBacks(b: Box, run: seq<Step>, m: Message): nat
    decreases |run|
  {
    if run == [] then 0
    else (if run[0].Process? && TakenBack(b, run[0].call, m) then 1 else 0) + TakeBacks(Next(b, run[0]), run[1..], m)
  }

  predicate Tracked(b: Box) { forall k :: k in b.counts ==> Named(b.inbox, k) || Named(b.processed, k) }

  predicate Inv(b: Box) { UniqueNames(b.inbox) && Bounded(b) && Tracked(b) }

  lemma NamedThere(s: seq<Message>, m: Message)
    requires m in s
    ensures Named(s, m.name)
  {
    var i :| 0 <= i < |s| && s[i] == m;
  }

  lemma MoveNames(b: Box, m: Message, name: string)
    requires Named(b.inbox, name) || Named(b.processed, name)
    ensures var a := Do(b, Move(m));
      (Named(a.inbox, name) || Named(a.processed, name)) && (Named(b.processed, name) ==> Named(a.processed, name))
  {
    var a := Do(b, Move(m));
    if Named(b.processed, name) {
      var i :| 0 <= i < |b.processed| && b.processed[i].name == name;
      NamedThere(a.processed, b.processed[i]);
    } else if m in b.inbox {
      var i :| 0 <= i < |b.inbox| && b.inbox[i].name == name;
      FilterMember(b.inbox, Others(m));
      if b.inbox[i] == m { NamedThere(a.processed, m); } else { NamedThere(a.inbox, b.inbox[i]); }
    }
  }

  /** No operation loses a file, and processed files stay processed. */
  lemma {:induction false} OpsKeepNames(b: Box, ops: seq<Op>, name: string)
    requires Named(b.inbox, name) || Named(b.processed, name)
    ensures Named(Apply(b, ops).inbox, name) || Named(Apply(b, ops).processed, name)
    ensures Named(b.processed, name) ==> Named(Apply(b, ops).processed, name)
  {
    if ops != [] {
      OpsKeepNames(b, ops[..|ops| - 1], name);
      var op := ops[|ops| - 1];
      if op.Move? { MoveNames(Apply(b, ops[..|ops| - 1]), op.message, name); }
    }
  }

  lemma ProcessedNames(b: Box, c: Call, name: string)
    requires Named(b.inbox, name) || Named(b.processed, name)
    ensures Named(Processed(b, c).inbox, name) || Named(Processed(b, c).processed, name)
    ensures Named(b.processed, name) ==> Named(Processed(b, c).processed, name)
  {
    OpsKeepNames(b, Ops(b, c)[..Min(c.cut, |Ops(b, c)|)], name);
  }

  /** Counters are only ever written for files that were there. */
  lemma CountersOfFiles(b: Box, c: Call, k: string)
    requires UniqueNames(b.inbox) && Tracked(b) && k in Processed(b, c).counts
    ensures Named(b.inbox, k) || Named(b.processed, k)
  {
    CallWrites(b, c);
    StaleAreCandidates(b, c);
    UnbumpCounts(CountsLater(b, c), Kept(b, c), k);
    PreparedBox(b, c, Message("", "", false, "", OtherSource, false, false));
    if k !in b.counts {
      assert k in Counted(b, c);
      DropCounts(Presented(b, c), Stale(b, c), k);
      var inbox := Sorted(b, c).inbox;
      var i :| 0 <= i < |inbox| && inbox[i].name == k;
      SortedInbox(b, c);
      assert inbox[i] in inbox;
      NamedThere(b.inbox, inbox[i]);
    }
  }

  lemma StepKeeps(b: Box, s: Step)
    requires Inv(b) && Legal(b, s)
    ensures Inv(Next(b, s))
  {
    match s
    case Arrive(m) => ArriveKeeps(b, m);
    case Process(c) =>
      ProcessedInbox(b, c, Message("", "", false, "", OtherSource, false, false));
      CallBounded(b, c);
      var a := Processed(b, c);
      forall k | k in a.counts ensures Named(a.inbox, k) || Named(a.processed, k) {
        CountersOfFiles(b, c, k);
        ProcessedNames(b, c, k);
      }
  }

  lemma ArriveKeeps(b: Box, m: Message)
    requires Inv(b) && Legal(b, Arrive(m))
    ensures Inv(Next(b, Arrive(m)))
  {
    var a := Next(b, Arrive(m));
    forall k | k in a.counts ensures Named(a.inbox, k) || Named(a.processed, k) {
      if Named(b.inbox, k) {
        var i :| 0 <= i < |b.inbox| && b.inbox[i].name == k;
        NamedThere(a.inbox, b.inbox[i]);
      }
    }
  }

  lemma {:induction false} RunCounts(b: Box, run: seq<Step>, m: Message)
    requires Inv(b) && LegalRun(b, run) && m in Exec(b, run).inbox
    ensures Inv(Exec(b, run))
    ensures Count(Exec(b, run).counts, m.name) + TakeBacks(b, run, m) ==
      (if m in b.inbox then Count(b.counts, m.name) else 0) + Spendings(b, run, m)
    decreases |run|
  {
    if run != [] {
      StepKeeps(b, run[0]);
      var a := Next(b, run[0]);
      RunCounts(a, run[1..], m);
      OnlyInboxCounts(b, run, m);
    }
  }

  /** A message that is still waiting at the end was waiting since it arrived. */
  lemma {:induction false} OnlyInboxCounts(b: Box, run: seq<Step>, m: Message)
    requires Inv(b) && LegalRun(b, run) && run != [] && m in Exec(b, run).inbox
    ensures var a := Next(b, run[0]);
      (if m in a.inbox then Count(a.counts, m.name) else 0)
      == (if m in b.inbox then Count(b.counts, m.name) else 0)
         + (if run[0].Process? && Spent(b, run[0].call, m) then 1 else 0)
         - (if run[0].Process? && TakenBack(b, run[0].call, m) then 1 else 0)
  {
    match run[0]
    case Arrive(x) =>
      if x == m && m !in b.inbox {
        assert m.name !in b.counts;
      }
    case Process(c) =>
      var a := Next(b, run[0]);
      if m in a.inbox {
        CallCounts(b, c, m);
      } else if m in b.inbox {
        LeavesForProcessed(b, c, m);
        StepKeeps(b, run[0]);
        GoneForGood(a, run[1..], m);
        assert false;
      } else {
        StaleAreCandidates(b, c);
      }
  }

  lemma LeavesForProcessed(b: Box, c: Call, m: Message)
    requires UniqueNames(b.inbox) && m in b.inbox && m !in Processed(b, c).inbox
    ensures Named(Processed(b, c).processed, m.name)
  {
    NamedThere(b.inbox, m);
    ProcessedNames(b, c, m.name);
    var inbox := Processed(b, c).inbox;
    if Named(inbox, m.name) {
      var i :| 0 <= i < |inbox| && inbox[i].name == m.name;
      assert inbox[i] in inbox;
      ProcessedInbox(b, c, inbox[i]);
      SameName(b.inbox, inbox[i], m);
    }
  }

  lemma {:induction false} GoneForGood(b: Box, run: seq<Step>, m: Message)
    requires Inv(b) && LegalRun(b, run) && m !in b.inbox && Named(b.processed, m.name)
    ensures m !in Exec(b, run).inbox
    decreases |run|
  {
    if run != [] {
      StepKeeps(b, run[0]);
      if run[0].Process? {
        ProcessedNames(b, run[0].call, m.name);
        ProcessedInbox(b, run[0].call, m);
      }
      GoneForGood(Next(b, run[0]), run[1..], m);
    }
  }

  /**
   In every run, cancelled and killed calls included, a waiting message's stored counter is the number
   of presentations spent on it less those taken back without having been recorded, and at most 3.
   So it is the number of presentations exactly if nothing was taken back.
   */
  lemma LedgerIsExact(run: seq<Step>, m: Message)
    requires LegalRun(EMPTY, run) && m in Exec(EMPTY, run).inbox
    ensures Count(Exec(EMPTY, run).counts, m.name) + TakeBacks(EMPTY, run, m) == Spendings(EMPTY, run, m)
    ensures Count(Exec(EMPTY, run).counts, m.name) <= MAX_INBOX_RETRIES
    ensures Count(Exec(EMPTY, run).counts, m.name) == Spendings(EMPTY, run, m) <==> TakeBacks(EMPTY, run, m) == 0
  {
    RunCounts(EMPTY, run, m);
    var b := Exec(EMPTY, run);
    var i :| 0 <= i < |b.inbox| && b.inbox[i] == m;
    assert Count(b.counts, b.inbox[i].name) <= MAX_INBOX_RETRIES;
  }

  /**
   After three presentations not taken back, and not before, the next tracked pickup of a message
   archives it with an overflow copy instead of showing it again.
   */
  lemma GivenUpAfterThree(run: seq<Step>, c: Call, m: Message)
    requires LegalRun(EMPTY, run) && m in Exec(EMPTY, run).inbox
    requires c.tracked && m in Candidates(Exec(EMPTY, run), c)
    ensures var b := Exec(EMPTY, run);
      var spent := Spendings(EMPTY, run, m) - TakeBacks(EMPTY, run, m);
      && (m in Stale(b, c) <==> spent == MAX_INBOX_RETRIES)
      && (m in Kept(b, c) <==> spent < MAX_INBOX_RETRIES)
      && (m in Stale(b, c) ==> m in Prepared(b, c).processed && m in Prepared(b, c).overflow && m !in Prepared(b, c).inbox)
  {
    LedgerIsExact(run, m);
    RunCounts(EMPTY, run, m);
    StaleAtLimit(Exec(EMPTY, run), c, m);
    FateGroups(Exec(EMPTY, run), c, m);
  }

  // ---------------------------------------------------------------- two runs

  lemma {:induction false} RunConcat(b: Box, v: seq<Step>, w: seq<Step>, m: Message)
    ensures Exec(b, v + w) == Exec(Exec(b, v), w)
    ensures LegalRun(b, v + w) <==> LegalRun(b, v) && LegalRun(Exec(b, v), w)
    ensures Spendings(b, v + w, m) == Spendings(b, v, m) + Spendings(Exec(b, v), w, m)
    decreases |v|
  {
    if v == [] {
      assert v + w == w;
    } else {
      assert (v + w)[0] == v[0] && (v + w)[1..] == v[1..] + w;
      RunConcat(Next(b, v[0]), v[1..], w, m);
    }
  }

  /** An ordinary message from someone not suppressed. */
  predicate Plain(m: Message, c: Call) { !m.delegation && !m.probe && m.sender !in c.suppressed }

  predicate Alone(b: Box, m: Message) { UniqueNames(b.inbox) && m in b.inbox && forall x :: x in b.inbox ==> x == m }

  lemma AloneCandidate(b: Box, c: Call, m: Message)
    requires Alone(b, m) && Plain(m, c)
    ensures m in Candidates(b, c) && Handled(b, c) == [] && Deferred(b, c) == []
  {
    Groups(b, c, m);
    if Handled(b, c) != [] { Groups(b, c, Handled(b, c)[0]); }
    if Defers(b, c) {
      var items := Undelegated(b, c);
      AllSelfNotices(b, c, m);
      FilterAll(items, SelfNotice(c));
    }
  }

  /** With a single message, either it is a self notice and nothing is external, or it is none. */
  lemma AllSelfNotices(b: Box, c: Call, m: Message)
    requires Alone(b, m) && Defers(b, c)
    ensures forall x :: x in Undelegated(b, c) ==> SelfNotice(c)(x)
  {
    var notices := Filter(Undelegated(b, c), SelfNotice(c));
    FilterMember(Undelegated(b, c), SelfNotice(c));
    assert notices[0] in notices;
    forall x | x in Undelegated(b, c) ensures x == m { Groups(b, c, x); }
  }

  lemma NothingBurst(b: Box, c: Call, m: Message)
    requires Alone(b, m)
    ensures BurstCopies(b, c) == []
  {
    FilterUnique(b.inbox, Visible(c));
    FilterUnique(Received(b, c), NonCritical());
    FilterMember(b.inbox, Visible(c));
    FilterMember(Received(b, c), NonCritical());
    AtMostOne(Filter(Received(b, c), NonCritical()), m);
  }

  lemma AtMostOne(s: seq<Message>, m: Message)
    requires UniqueNames(s) && forall x :: x in s ==> x == m
    ensures |s| <= 1 && (s == [] || s == [m])
  {
    assert forall i :: 0 <= i < |s| ==> s[i] in s;
    assert |s| <= 1 || s[0].name != s[1].name;
  }

  lemma AloneKept(b: Box, c: Call, m: Message)
    requires Alone(b, m) && Plain(m, c) && (c.tracked ==> Count(b.counts, m.name) < MAX_INBOX_RETRIES)
    ensures Kept(b, c) == [m] && Stale(b, c) == []
  {
    AloneCandidate(b, c, m);
    CandidatesUnique(b, c);
    StaleAreCandidates(b, c);
    SortedInbox(b, c);
    PresentedCounts(b, c, m);
    FateGroups(b, c, m);
    AtMostOne(Kept(b, c), m);
    if Stale(b, c) != [] { FateGroups(b, c, Stale(b, c)[0]); }
  }

  lemma AlonePickup(b: Box, c: Call, m: Message)
    requires Alone(b, m) && Plain(m, c) && (c.tracked ==> Count(b.counts, m.name) < MAX_INBOX_RETRIES)
    ensures |Pickup(b, c)| == if c.tracked then 1 else 0
  {
    AloneKept(b, c, m);
    AloneCandidate(b, c, m);
    NothingBurst(b, c, m);
    assert Gathering(b, c) == [];
  }

  lemma StaysAlone(b: Box, c: Call, m: Message, a: Box)
    requires Alone(b, m) && a == Processed(b, c) && m in a.inbox
    ensures Alone(a, m)
  {
    OpsShrinkInbox(b, Ops(b, c)[..Min(c.cut, |Ops(b, c)|)]);
  }

  /** A pickup that is killed right after it wrote the counters, or one that gets an empty reply. */
  predicate Spends(c: Call) { c.tracked && (c.cut == 1 || (c.outcome.EmptyReply? && c.cut > 1)) }

  lemma NothingAfterPickup(b: Box, c: Call, m: Message)
    requires Alone(b, m) && Plain(m, c) && Spends(c) && Count(b.counts, m.name) < MAX_INBOX_RETRIES
    ensures Spent(b, c, m) && Processed(b, c) == Prepared(b, c)
  {
    AloneKept(b, c, m);
    AlonePickup(b, c, m);
    var j := EndingCut(b, c);
    if c.cut == 1 {
      assert Ending(b, c)[..j] == [];
    } else {
      NeverAllExhausted(b, c);
      EmptyEnding(CountsLater(b, c), Kept(b, c), FastReplied(b, c), c);
      assert Ending(b, c)[..j] == [];
    }
  }

  lemma EmptyEnding(counts: map<string, nat>, kept: seq<Message>, fastReplied: bool, c: Call)
    requires c.tracked && c.outcome.EmptyReply? && !fastReplied && !AllExhausted(counts, kept)
    ensures Conclusion(counts, kept, fastReplied, c) == [] && !Undoes(kept, fastReplied, c)
  {
  }

  lemma SpendingCall(b: Box, c: Call, m: Message, a: Box)
    requires Alone(b, m) && Plain(m, c) && Spends(c) && Count(b.counts, m.name) < MAX_INBOX_RETRIES && a == Processed(b, c)
    ensures Alone(a, m) && Spent(b, c, m) && Count(a.counts, m.name) == Count(b.counts, m.name) + 1
  {
    NothingAfterPickup(b, c, m);
    PreparedBox(b, c, m);
    StaysAlone(b, c, m, a);
    CallCounts(b, c, m);
  }

  lemma TakingBackCall(b: Box, c: Call, m: Message, a: Box)
    requires Alone(b, m) && Plain(m, c) && !c.tracked && c.outcome.Crashed? && c.cut > 0 && Count(b.counts, m.name) > 0
    requires a == Processed(b, c)
    ensures Alone(a, m) && TakenBack(b, c, m) && !Spent(b, c, m) && Count(a.counts, m.name) == Count(b.counts, m.name) - 1
  {
    AloneKept(b, c, m);
    AlonePickup(b, c, m);
    PreparedBox(b, c, m);
    CallWrites(b, c);
    StaysAlone(b, c, m, a);
    CallCounts(b, c, m);
  }

  lemma OneStep(b: Box, c: Call, rest: seq<Step>, m: Message, a: Box)
    requires a == Processed(b, c)
    ensures var run := [Process(c)] + rest;
      && Exec(b, run) == Exec(a, rest) && (LegalRun(b, run) <==> LegalRun(a, rest))
      && Spendings(b, run, m) == (if Spent(b, c, m) then 1 else 0) + Spendings(a, rest, m)
  {
    var run := [Process(c)] + rest;
    assert run[0] == Process(c) && run[1..] == rest;
  }

  /** After this run m waits alone, with this counter and this many spent presentations. */
  predicate Reached(run: seq<Step>, m: Message, count: nat, spent: nat) {
    var b := Exec(EMPTY, run);
    LegalRun(EMPTY, run) && Alone(b, m) && Count(b.counts, m.name) == count && Spendings(EMPTY, run, m) == spent
  }

  /** Runs of an arrival and calls of one kind. */
  predicate OnlyCalls(run: seq<Step>, m: Message, c: Call) {
    run != [] && run[0] == Arrive(m) && forall i :: 0 < i < |run| ==> run[i] == Process(c)
  }

  lemma OneMoreCall(run: seq<Step>, longer: seq<Step>, m: Message, c: Call)
    requires OnlyCalls(run, m, c) && longer == run + [Process(c)]
    ensures OnlyCalls(longer, m, c)
  {
  }

  lemma OneMore(run: seq<Step>, c: Call, m: Message, b: Box, a: Box)
    requires LegalRun(EMPTY, run) && b == Exec(EMPTY, run) && a == Processed(b, c)
    ensures LegalRun(EMPTY, run + [Process(c)]) && Exec(EMPTY, run + [Process(c)]) == a
    ensures Spendings(EMPTY, run + [Process(c)], m) == Spendings(EMPTY, run, m) + if Spent(b, c, m) then 1 else 0
  {
    RunConcat(EMPTY, run, [Process(c)], m);
    OneStep(b, c, [], m, a);
    assert [Process(c)] + [] == [Process(c)];
  }

  lemma ReachSpending(run: seq<Step>, c: Call, m: Message, count: nat, spent: nat) returns (longer: seq<Step>)
    requires Reached(run, m, count, spent) && count < MAX_INBOX_RETRIES && Plain(m, c) && Spends(c)
    ensures longer == run + [Process(c)] && Reached(longer, m, count + 1, spent + 1)
  {
    longer := run + [Process(c)];
    var b := Exec(EMPTY, run);
    var a := Processed(b, c);
    SpendingCall(b, c, m, a);
    OneMore(run, c, m, b, a);
  }

  lemma ReachTakingBack(run: seq<Step>, c: Call, m: Message, count: nat, spent: nat) returns (longer: seq<Step>)
    requires Reached(run, m, count, spent) && count > 0
    requires Plain(m, c) && !c.tracked && c.outcome.Crashed? && c.cut > 0
    ensures Reached(longer, m, count - 1, spent)
  {
    longer := run + [Process(c)];
    var b := Exec(EMPTY, run);
    var a := Processed(b, c);
    TakingBackCall(b, c, m, a);
    OneMore(run, c, m, b, a);
  }

  lemma ReachedByArrival(m: Message)
    ensures Reached([Arrive(m)], m, 0, 0)
  {
    var b := Next(EMPTY, Arrive(m));
    assert [Arrive(m)][1..] == [];
    assert Exec(b, []) == b && LegalRun(b, []) && Spendings(b, [], m) == 0;
  }

  lemma {:induction false} ReachedBySpending(c: Call, m: Message, n: nat) returns (run: seq<Step>)
    requires Plain(m, c) && Spends(c) && n <= MAX_INBOX_RETRIES
    ensures Reached(run, m, n, n) && OnlyCalls(run, m, c)
  {
    if n == 0 {
      run := [Arrive(m)];
      ReachedByArrival(m);
    } else {
      var shorter := ReachedBySpending(c, m, n - 1);
      run := ReachSpending(shorter, c, m, n - 1, n - 1);
      OneMoreCall(shorter, run, m, c);
    }
  }

  /**
   Three calls cancelled or killed after their pickup use up a message like three empty replies: the
   next tracked pickup gives it up although the model never had a chance to answer.
   */
  lemma CancelledCallsGiveUp(m: Message, killed: Call, next: Call) returns (run: seq<Step>)
    requires killed.tracked && killed.cut == 1 && Plain(m, killed) && next.tracked && Plain(m, next)
    ensures LegalRun(EMPTY, run) && OnlyCalls(run, m, killed)
    ensures m in Exec(EMPTY, run).inbox && m in Stale(Exec(EMPTY, run), next)
  {
    run := ReachedBySpending(killed, m, 3);
    GivenUpAt(run, m, 3, next);
  }

  lemma GivenUpAt(run: seq<Step>, m: Message, spent: nat, c: Call)
    requires Reached(run, m, MAX_INBOX_RETRIES, spent) && c.tracked && Plain(m, c)
    ensures m in Stale(Exec(EMPTY, run), c)
  {
    var b := Exec(EMPTY, run);
    AloneCandidate(b, c, m);
    assert Bounded(b) by { assert forall i :: 0 <= i < |b.inbox| ==> b.inbox[i] in b.inbox; }
    StaleAtLimit(b, c, m);
  }

  /** With one blocked call that raises in between, a message is presented four times and still waits. */
  lemma PresentedFourTimes(m: Message, empty: Call, blocked: Call) returns (run: seq<Step>)
    requires empty.tracked && empty.outcome.EmptyReply? && empty.cut > 1 && Plain(m, empty)
    requires !blocked.tracked && blocked.outcome.Crashed? && blocked.cut > 0 && Plain(m, blocked)
    ensures LegalRun(EMPTY, run) && m in Exec(EMPTY, run).inbox && Spendings(EMPTY, run, m) == 4
  {
    var three := ReachedBySpending(empty, m, 3);
    run := ReachTakingBack(three, blocked, m, 3, 3);
    run := ReachSpending(run, empty, m, 2, 3);
  }
}
