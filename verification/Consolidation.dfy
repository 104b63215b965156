/**
 Daily consolidation: episodes are extracted from activity chunks, written to the day's file,
 published to the carryover and only then acknowledged; a finished knowledge run clears the
 carryover. The process may die between any two writes.
 */
module Consolidation {
  import opened Texts
  import opened Timeline
  import opened SeqFilter

  const CARRYOVER_MAX_DAYS := 3

  // ---------------------------------------------------------------- the carryover file

  datatype Item = Item(date: int, text: Text)

  predicate SortedByDate(items: seq<Item>) { forall i, j :: 0 <= i < j < |items| ==> items[i].date < items[j].date }

  /** A day's text with a new summary: nothing to add if the summary occurs in it. */
  function Extend(existing: Text, summary: Text): Text {
    if existing == "" then summary
    else if Occurs(summary, existing) then existing
    else existing + "\n\n" + summary
  }

  function ItemFor(items: seq<Item>, date: int): Text {
    if items == [] then "" else if items[0].date == date then items[0].text else ItemFor(items[1..], date)
  }

  function Insert(items: seq<Item>, it: Item): seq<Item> {
    if items == [] then [it]
    else if items[0].date < it.date then [items[0]] + Insert(items[1..], it)
    else if items[0].date == it.date then [it] + items[1..]
    else [it] + items
  }

  function Cap(items: seq<Item>): seq<Item> {
    if |items| > CARRYOVER_MAX_DAYS then items[|items| - CARRYOVER_MAX_DAYS..] else items
  }

  function Record(items: seq<Item>, date: int, episode: Text): seq<Item> {
    if !Usable(episode) then items
    else Cap(Insert(items, Item(date, Extend(ItemFor(items, date), Strip(episode)))))
  }

  predicate Pending(items: seq<Item>, date: int) { exists i :: 0 <= i < |items| && items[i].date == date }

  /** How many other days wait. */
  function Others(items: seq<Item>, date: int): nat {
    if items == [] then 0 else (if items[0].date == date then 0 else 1) + Others(items[1..], date)
  }

  predicate EndsIn(t: Text, part: Text) { |part| <= |t| && t[|t| - |part|..] == part }

  /**
   A second summary of a day is there in one piece, and so is everything that was there before: it comes after
   it, and is not repeated.
   */
  lemma ExtendKeeps(existing: Text, summary: Text, part: Text)
    ensures Occurs(summary, Extend(existing, summary))
    ensures Occurs(part, existing) && part != "" ==> Occurs(part, Extend(existing, summary))
    ensures existing <= Extend(existing, summary) && (existing != "" && Occurs(summary, existing) ==> Extend(existing, summary) == existing)
    ensures EndsIn(Extend(existing, summary), summary) || Occurs(summary, existing)
  {
    OccursItself(summary);
    assert summary[0..] == summary;
    assert existing != "" && !Occurs(summary, existing) ==> (existing + "\n\n" + summary)[|existing| + 2..] == summary;
    if existing != "" && !Occurs(summary, existing) {
      OccursWithin(summary, existing + "\n\n", summary, "");
      assert existing + "\n\n" + summary + "" == existing + "\n\n" + summary;
      if Occurs(part, existing) {
        OccursWithin(part, "", existing, "\n\n" + summary);
        assert "" + existing + ("\n\n" + summary) == existing + "\n\n" + summary;
      }
    }
    if existing == "" && part != "" { NothingInEmpty(part); }
  }

  lemma {:induction false} InsertMembers(items: seq<Item>, it: Item)
    requires SortedByDate(items)
    ensures forall x :: x in Insert(items, it) <==> x == it || (x in items && x.date != it.date)
  {
    if items != [] {
      assert items == [items[0]] + items[1..];
      InsertMembers(items[1..], it);
    }
  }

  lemma SortedCons(x: Item, rest: seq<Item>, all: seq<Item>)
    requires SortedByDate(rest) && (forall y :: y in rest ==> x.date < y.date) && all == [x] + rest
    ensures SortedByDate(all)
  {
    forall i, j | 0 <= i < j < |all| ensures all[i].date < all[j].date {
      assert all[j] == rest[j - 1] && rest[j - 1] in rest;
      if i > 0 { assert all[i] == rest[i - 1]; }
    }
  }

  lemma SortedTail(items: seq<Item>)
    requires items != [] && SortedByDate(items)
    ensures SortedByDate(items[1..]) && forall y :: y in items[1..] ==> items[0].date < y.date
  {
  }

  lemma {:induction false} InsertKeeps(items: seq<Item>, it: Item)
    requires SortedByDate(items)
    ensures SortedByDate(Insert(items, it))
    ensures |Insert(items, it)| == Others(items, it.date) + 1
  {
    if items != [] {
      var first, rest := items[0], items[1..];
      SortedTail(items);
      if first.date < it.date {
        InsertKeeps(rest, it);
        InsertMembers(rest, it);
        SortedCons(first, Insert(rest, it), Insert(items, it));
      } else {
        NoneOfDate(rest, it.date);
        var tail := if first.date == it.date then rest else items;
        assert items == [first] + rest;
        SortedCons(it, tail, Insert(items, it));
      }
    }
  }

  lemma {:induction false} NoneOfDate(items: seq<Item>, date: int)
    requires forall y :: y in items ==> date < y.date || y.date < date
    ensures Others(items, date) == |items|
  {
    if items != [] {
      assert items[0] in items;
      NoneOfDate(items[1..], date);
    }
  }

  lemma {:induction false} ItemForIs(items: seq<Item>, x: Item)
    requires SortedByDate(items) && x in items
    ensures ItemFor(items, x.date) == x.text
  {
    if items[0] != x {
      assert items == [items[0]] + items[1..];
      ItemForIs(items[1..], x);
    }
  }

  lemma {:induction false} FindItem(items: seq<Item>, date: int) returns (x: Item)
    requires Pending(items, date)
    ensures x in items && x.date == date && ItemFor(items, date) == x.text
  {
    if items[0].date == date {
      x := items[0];
    } else {
      var i :| 0 <= i < |items| && items[i].date == date;
      assert items[1..][i - 1] == items[i];
      x := FindItem(items[1..], date);
    }
  }

  lemma {:induction false} NoItem(items: seq<Item>, date: int)
    requires !Pending(items, date)
    ensures ItemFor(items, date) == ""
  {
    if items != [] {
      var rest := items[1..];
      forall i | 0 <= i < |rest| ensures rest[i].date != date { assert rest[i] == items[i + 1]; }
      NoItem(rest, date);
    }
  }

  lemma MemberPending(items: seq<Item>, x: Item)
    requires x in items
    ensures Pending(items, x.date)
  {
    var i :| 0 <= i < |items| && items[i] == x;
  }

  lemma CapKeepsSorted(items: seq<Item>)
    requires SortedByDate(items)
    ensures SortedByDate(Cap(items)) && |Cap(items)| <= CARRYOVER_MAX_DAYS && forall x :: x in Cap(items) ==> x in items
  {
  }

  lemma RecordSorted(items: seq<Item>, date: int, episode: Text)
    requires SortedByDate(items)
    ensures SortedByDate(Record(items, date, episode))
  {
    if Usable(episode) {
      var it := Item(date, Extend(ItemFor(items, date), Strip(episode)));
      InsertKeeps(items, it);
      CapKeepsSorted(Insert(items, it));
    }
  }

  function DaysAfter(items: seq<Item>, d: int): nat {
    if items == [] then 0 else (if items[0].date > d then 1 else 0) + DaysAfter(items[1..], d)
  }

  /** A day that is waiting or new, with three later ones among those waiting and the new one. */
  predicate Dropped(items: seq<Item>, date: int, d: int) {
    && (Pending(items, d) || d == date)
    && DaysAfter(items, d) + (if date > d && !Pending(items, date) then 1 else 0) >= CARRYOVER_MAX_DAYS
  }

  lemma PendingRest(items: seq<Item>, date: int)
    requires items != []
    ensures Pending(items, date) <==> items[0].date == date || Pending(items[1..], date)
  {
    var rest := items[1..];
    if Pending(items, date) && items[0].date != date {
      var i :| 0 <= i < |items| && items[i].date == date;
      assert rest[i - 1].date == date;
    }
    if Pending(rest, date) {
      var i :| 0 <= i < |rest| && rest[i].date == date;
      assert items[i + 1].date == date;
    }
  }

  lemma {:induction false} InsertDaysAfter(items: seq<Item>, it: Item, d: int)
    requires SortedByDate(items)
    ensures DaysAfter(Insert(items, it), d) == DaysAfter(items, d) + if it.date > d && !Pending(items, it.date) then 1 else 0
    ensures Pending(Insert(items, it), d) <==> Pending(items, d) || d == it.date
  {
    var all := Insert(items, it);
    if items == [] {
      assert all[0] == it && all[1..] == [];
    } else {
      PendingRest(items, it.date);
      PendingRest(items, d);
      PendingRest(all, d);
      if items[0].date < it.date {
        assert all[0] == items[0] && all[1..] == Insert(items[1..], it);
        InsertDaysAfter(items[1..], it, d);
      } else if items[0].date == it.date {
        assert all[0] == it && all[1..] == items[1..];
      } else {
        assert all[0] == it && all[1..] == items;
      }
    }
  }

  lemma {:induction false} SortedDaysAfter(items: seq<Item>, i: nat)
    requires SortedByDate(items) && i < |items|
    ensures DaysAfter(items, items[i].date) == |items| - 1 - i
  {
    var rest := items[1..];
    if i > 0 { SortedDaysAfter(rest, i - 1); } else if rest != [] { SortedDaysAfter(rest, 0); AllAfter(rest, items[0].date, rest[0].date); }
  }

  lemma {:induction false} AllAfter(items: seq<Item>, c: int, d: int)
    requires items != [] && SortedByDate(items) && items[0].date == d && c < d
    ensures DaysAfter(items, c) == |items|
  {
    if |items| > 1 { AllAfter(items[1..], c, items[1].date); }
  }

  /** Exactly the dropped days are not waiting after a record. */
  lemma RecordPending(items: seq<Item>, date: int, episode: Text, d: int)
    requires SortedByDate(items) && Usable(episode)
    ensures Pending(Record(items, date, episode), d) <==> (Pending(items, d) || d == date) && !Dropped(items, date, d)
  {
    var it := Item(date, Extend(ItemFor(items, date), Strip(episode)));
    var full := Insert(items, it);
    InsertKeeps(items, it);
    InsertDaysAfter(items, it, d);
    CapPending(full, d);
  }

  lemma CapPending(full: seq<Item>, d: int)
    requires SortedByDate(full)
    ensures Pending(Cap(full), d) <==> Pending(full, d) && DaysAfter(full, d) < CARRYOVER_MAX_DAYS
  {
    var kept := Cap(full);
    var gone := |full| - |kept|;
    assert forall i :: 0 <= i < |kept| ==> kept[i] == full[gone + i];
    if Pending(full, d) {
      var i :| 0 <= i < |full| && full[i].date == d;
      SortedDaysAfter(full, i);
      if i >= gone { assert kept[i - gone].date == d; }
    }
  }

  /** The recorded text and all that waits survive in one piece on every day that is not dropped. */
  lemma RecordKeeps(items: seq<Item>, date: int, episode: Text, d: int, part: Text)
    requires SortedByDate(items) && Usable(episode) && !Dropped(items, date, d)
    ensures d == date ==> Occurs(Strip(episode), ItemFor(Record(items, date, episode), d))
    ensures part != "" && Occurs(part, ItemFor(items, d)) ==> Occurs(part, ItemFor(Record(items, date, episode), d))
  {
    var it := Item(date, Extend(ItemFor(items, date), Strip(episode)));
    InsertMembers(items, it);
    InsertKeeps(items, it);
    CapKeepsSorted(Insert(items, it));
    ExtendKeeps(ItemFor(items, date), Strip(episode), part);
    RecordPending(items, date, episode, d);
    if d == date || Pending(items, d) {
      var x := FindItem(Record(items, date, episode), d);
      if d != date { ItemForIs(items, x); }
    } else {
      NoItem(items, d);
      if part != "" { NothingInEmpty(part); }
    }
  }

  /** The cap is exact: every waiting day and the new one survive if and only if there was room. */
  lemma RecordKeepsDaysIffRoom(items: seq<Item>, date: int, episode: Text)
    requires SortedByDate(items) && Usable(episode)
    ensures (forall d :: Pending(items, d) || d == date ==> Pending(Record(items, date, episode), d))
        <==> Others(items, date) < CARRYOVER_MAX_DAYS
  {
    var it := Item(date, Extend(ItemFor(items, date), Strip(episode)));
    var full := Insert(items, it);
    InsertMembers(items, it);
    InsertKeeps(items, it);
    if Others(items, date) < CARRYOVER_MAX_DAYS {
      forall d | Pending(items, d) || d == date ensures Pending(Record(items, date, episode), d) {
        if d == date {
          MemberPending(full, it);
        } else {
          var i :| 0 <= i < |items| && items[i].date == d;
          MemberPending(full, items[i]);
        }
      }
    } else {
      DroppedDay(full);
      var d := full[0].date;
      assert full[0] in full;
      if full[0] != it { MemberPending(items, full[0]); }
      assert Pending(items, d) || d == date;
    }
  }

  lemma DroppedDay(full: seq<Item>)
    requires SortedByDate(full) && |full| > CARRYOVER_MAX_DAYS
    ensures !Pending(Cap(full), full[0].date)
  {
    var kept := Cap(full);
    forall i | 0 <= i < |kept| ensures kept[i].date != full[0].date { assert kept[i] == full[|full| - CARRYOVER_MAX_DAYS + i]; }
  }

  // ---------------------------------------------------------------- the store and its writes

  type Chunk = string

  /** A chunk with the model's answer and its answer to the one retry after an empty answer. */
  datatype Work = Work(chunk: Chunk, first: Text, retry: Text)

  function Extracted(w: Work): Text { StripCodeFence(if w.first != "" then w.first else w.retry) }

  datatype PhaseB = Completed | Truncated | Aborted
  datatype Day = Day(date: int, work: seq<Work>, phaseB: PhaseB)

  /** What is remembered beside a chunk's hash: what was extracted from it, and the run's merged episode. */
  datatype Ack = Ack(extracted: Text, episode: Text)

  /** The episode files, the carryover file, the checkpoint, and the prompts of knowledge runs not truncated. */
  datatype Store = Store(episodes: map<int, Text>, carry: seq<Item>, acked: map<(int, Chunk), Ack>, delivered: seq<Text>)

  datatype Write =
    | WriteEpisode(date: int, text: Text)
    | RecordCarry(date: int, text: Text)
    | Acknowledge(date: int, done: seq<Work>, text: Text)
    | Deliver(prompt: Text)
    | ClearCarry

  function EpisodeFor(s: Store, date: int): Text { if date in s.episodes then s.episodes[date] else "" }

  const RAW_NOTES := "## Raw notes (preserved)\n\n"
  const TIMELINE := "\n\n## Consolidated timeline\n\n"
  const CARRY_OVER := "## Carry-over\n\n"

  function Framed(first: Text, notes: Text, second: Text, summary: Text): Text { first + notes + (second + summary + "\n") }

  function MergedEpisode(existing: Text, timeline: Text): Text {
    if !Usable(timeline) then existing
    else if !Usable(existing) then Framed("", "", "", Strip(timeline))
    else Framed(RAW_NOTES, Strip(existing), TIMELINE, Strip(timeline))
  }

  function AckAll(acked: map<(int, Chunk), Ack>, date: int, done: seq<Work>, text: Text): map<(int, Chunk), Ack> {
    if done == [] then acked
    else AckAll(acked, date, done[..|done| - 1], text)[(date, done[|done| - 1].chunk) := Ack(Extracted(done[|done| - 1]), text)]
  }

  function Apply(s: Store, w: Write): Store {
    match w
    case WriteEpisode(d, t) => s.(episodes := s.episodes[d := MergedEpisode(EpisodeFor(s, d), t)])
    case RecordCarry(d, t) => s.(carry := Record(s.carry, d, t))
    case Acknowledge(d, done, t) => s.(acked := AckAll(s.acked, d, done, t))
    case Deliver(prompt) => s.(delivered := s.delivered + [prompt])
    case ClearCarry => s.(carry := [])
  }

  function ApplyAll(s: Store, ws: seq<Write>): Store {
    if ws == [] then s else Apply(ApplyAll(s, ws[..|ws| - 1]), ws[|ws| - 1])
  }

  /** A chunk not acknowledged before whose extraction produces something. */
  function Unwritten(s: Store, date: int): Work -> bool { (w: Work) => (date, w.chunk) !in s.acked && Usable(Extracted(w)) }

  function Fresh(s: Store, day: Day): seq<Work> { Filter(day.work, Unwritten(s, day.date)) }

  /** What was extracted from each chunk, in order. */
  function Parts(works: seq<Work>): (parts: seq<Text>)
    ensures |parts| == |works|
  {
    if works == [] then [] else Parts(works[..|works| - 1]) + [Extracted(works[|works| - 1])]
  }

  function Format(items: seq<Item>): Text {
    if items == [] then ""
    else if |items| == 1 then CARRY_OVER + items[0].text
    else Format(items[..|items| - 1]) + ("\n\n" + CARRY_OVER + items[|items| - 1].text)
  }

  function PhaseAWrites(s: Store, day: Day): seq<Write> {
    var done := Fresh(s, day);
    if done == [] then []
    else
      var merged := MergeParts(Parts(done));
      [WriteEpisode(day.date, merged), RecordCarry(day.date, merged), Acknowledge(day.date, done, merged)]
  }

  /** A finished knowledge run was given all that waits, and then it is cleared. */
  function KnowledgeWrites(m: Store): seq<Write> { [Deliver(Format(m.carry)), ClearCarry] }

  /** All durable writes of one run, in order. */
  function Writes(s: Store, day: Day): seq<Write> {
    var a := PhaseAWrites(s, day);
    var carry := ApplyAll(s, a).carry;
    if carry == [] || !day.phaseB.Completed? then a
    else a + KnowledgeWrites(ApplyAll(s, a))
  }

  // ---------------------------------------------------------------- nothing acknowledged is lost

  predicate Delivered(s: Store, block: Text) { exists j :: 0 <= j < |s.delivered| && Occurs(block, s.delivered[j]) }

  /** The block waits in one piece in the carryover, or a finished knowledge run was given it in one piece. */
  predicate Reaches(s: Store, date: int, block: Text) { Occurs(block, ItemFor(s.carry, date)) || Delivered(s, block) }

  /** The episode is a usable text that has all lines of the extract, and it is where it must be. */
  ghost predicate Secured(s: Store, date: int, a: Ack) {
    && Usable(a.episode) && CoversLines(a.episode, a.extracted)
    && Occurs(Strip(a.episode), EpisodeFor(s, date)) && Reaches(s, date, Strip(a.episode))
  }

  ghost predicate Safe(s: Store) { SortedByDate(s.carry) && forall k :: k in s.acked ==> Secured(s, k.0, s.acked[k]) }

  lemma FreshIs(s: Store, day: Day, i: nat)
    requires i < |Fresh(s, day)|
    ensures var w := Fresh(s, day)[i]; w in day.work && Usable(Extracted(w)) && (day.date, w.chunk) !in s.acked
  {
    FilterMember(day.work, Unwritten(s, day.date));
    assert Fresh(s, day)[i] in Fresh(s, day);
  }

  lemma {:induction false} PartAt(works: seq<Work>, i: nat)
    requires i < |works|
    ensures Parts(works)[i] == Extracted(works[i])
  {
    var shorter, last := works[..|works| - 1], |works| - 1;
    assert Parts(works) == Parts(shorter) + [Extracted(works[last])];
    if i < last { PartAt(shorter, i); }
  }

  /** The merged episode of a day has all lines of what was extracted from each of its chunks. */
  lemma MergedCovers(works: seq<Work>, i: nat)
    requires i < |works|
    ensures CoversLines(MergeParts(Parts(works)), Extracted(works[i]))
    ensures Usable(Extracted(works[i])) ==> Usable(MergeParts(Parts(works)))
  {
    PartAt(works, i);
    MergeCovers(Parts(works), i);
    if Usable(Extracted(works[i])) { CoveringIsUsable(MergeParts(Parts(works)), Extracted(works[i])); }
  }

  /** What is written stays in one piece, whatever is merged into the file later. */
  lemma EpisodeKeeps(existing: Text, timeline: Text, block: Text)
    ensures Usable(timeline) ==> Occurs(Strip(timeline), MergedEpisode(existing, timeline))
    ensures Block(block) && Occurs(block, existing) ==> Occurs(block, MergedEpisode(existing, timeline))
  {
    if Usable(timeline) {
      EpisodeHasNew(existing, timeline);
      if Block(block) && Occurs(block, existing) { EpisodeHasOld(existing, timeline, block); }
    }
  }

  lemma FramedHas(first: Text, notes: Text, second: Text, summary: Text, block: Text)
    ensures Occurs(summary, Framed(first, notes, second, summary))
    ensures Occurs(block, notes) ==> Occurs(block, Framed(first, notes, second, summary))
  {
    OccursItself(summary);
    OccursWithin(summary, first + notes + second, summary, "\n");
    assert first + notes + second + summary + "\n" == Framed(first, notes, second, summary);
    if Occurs(block, notes) { OccursWithin(block, first, notes, second + summary + "\n"); }
  }

  lemma EpisodeHasNew(existing: Text, timeline: Text)
    requires Usable(timeline)
    ensures Occurs(Strip(timeline), MergedEpisode(existing, timeline))
  {
    if Usable(existing) {
      FramedHas(RAW_NOTES, Strip(existing), TIMELINE, Strip(timeline), "");
    } else {
      FramedHas("", "", "", Strip(timeline), "");
    }
  }

  lemma EpisodeHasOld(existing: Text, timeline: Text, block: Text)
    requires Usable(timeline) && Block(block) && Occurs(block, existing)
    ensures Occurs(block, MergedEpisode(existing, timeline))
  {
    StripKeeps(block, existing);
    if !Usable(existing) { NothingInEmpty(block); }
    FramedHas(RAW_NOTES, Strip(existing), TIMELINE, Strip(timeline), block);
  }

  lemma EpisodeStep(s: Store, date: int, text: Text)
    requires Safe(s) && Usable(text)
    ensures var t := Apply(s, WriteEpisode(date, text)); 
      && Safe(t) && Occurs(Strip(text), EpisodeFor(t, date))
      && t.carry == s.carry && t.acked == s.acked && t.delivered == s.delivered
  {
    var t := Apply(s, WriteEpisode(date, text));
    EpisodeKeeps(EpisodeFor(s, date), text, "");
    forall k | k in t.acked ensures Secured(t, k.0, t.acked[k]) {
      assert Secured(s, k.0, s.acked[k]);
      StripIsBlock(s.acked[k].episode);
      EpisodeKeeps(EpisodeFor(s, date), text, Strip(s.acked[k].episode));
    }
  }

  /** An acknowledged episode of the day was given to no finished knowledge run yet. */
  ghost predicate Owed(s: Store, d: int) {
    exists c :: (d, c) in s.acked && Usable(s.acked[(d, c)].episode) && !Delivered(s, Strip(s.acked[(d, c)].episode))
  }

  ghost predicate NoOwedDropped(s: Store, date: int) { forall d :: Dropped(s.carry, date, d) ==> !Owed(s, d) }

  lemma LostDay(t: Store, d: int)
    requires Owed(t, d) && !Pending(t.carry, d)
    ensures !Safe(t)
  {
    var c :| (d, c) in t.acked && Usable(t.acked[(d, c)].episode) && !Delivered(t, Strip(t.acked[(d, c)].episode));
    NoItem(t.carry, d);
    NothingInEmpty(Strip(t.acked[(d, c)].episode));
    assert !Secured(t, d, t.acked[(d, c)]);
  }

  /** Recording a day keeps the promise if it drops nothing that is owed. */
  lemma CarryStep(s: Store, date: int, text: Text)
    requires Safe(s) && Usable(text) && NoOwedDropped(s, date)
    ensures var t := Apply(s, RecordCarry(date, text));
      Safe(t) && (!Dropped(s.carry, date, date) ==> Occurs(Strip(text), ItemFor(t.carry, date)))
  {
    var t := Apply(s, RecordCarry(date, text));
    RecordSorted(s.carry, date, text);
    if !Dropped(s.carry, date, date) { RecordKeeps(s.carry, date, text, date, ""); }
    forall k | k in t.acked ensures Secured(t, k.0, t.acked[k]) {
      assert Secured(s, k.0, s.acked[k]);
      StillReaches(s, date, text, t, k);
    }
  }

  lemma StillReaches(s: Store, date: int, text: Text, t: Store, k: (int, Chunk))
    requires Safe(s) && Usable(text) && NoOwedDropped(s, date) && t == Apply(s, RecordCarry(date, text)) && k in s.acked
    ensures Reaches(t, k.0, Strip(s.acked[k].episode))
  {
    assert Secured(s, k.0, s.acked[k]);
    if !Delivered(s, Strip(s.acked[k].episode)) {
      assert (k.0, k.1) in s.acked;
      assert Owed(s, k.0);
      RecordKeeps(s.carry, date, text, k.0, Strip(s.acked[k].episode));
    }
  }

  lemma {:induction false} AckAllIs(acked: map<(int, Chunk), Ack>, date: int, done: seq<Work>, text: Text, k: (int, Chunk))
    requires k in AckAll(acked, date, done, text)
    ensures var a := AckAll(acked, date, done, text)[k];
      (k in acked && a == acked[k]) || (k.0 == date && exists i :: 0 <= i < |done| && a == Ack(Extracted(done[i]), text))
  {
    if done != [] {
      var shorter := done[..|done| - 1];
      if k != (date, done[|done| - 1].chunk) {
        AckAllIs(acked, date, shorter, text, k);
        var a := AckAll(acked, date, done, text)[k];
        if !(k in acked && a == acked[k]) {
          var i :| 0 <= i < |shorter| && a == Ack(Extracted(shorter[i]), text);
          assert done[i] == shorter[i];
        }
      }
    }
  }

  lemma AckStep(s: Store, date: int, done: seq<Work>, text: Text)
    requires Safe(s) && Usable(text) && Reaches(s, date, Strip(text)) && Occurs(Strip(text), EpisodeFor(s, date))
    requires forall i :: 0 <= i < |done| ==> CoversLines(text, Extracted(done[i]))
    ensures Safe(Apply(s, Acknowledge(date, done, text)))
  {
    var t := Apply(s, Acknowledge(date, done, text));
    forall k | k in t.acked ensures Secured(t, k.0, t.acked[k]) {
      AckAllIs(s.acked, date, done, text, k);
      if k in s.acked && t.acked[k] == s.acked[k] { assert Secured(s, k.0, s.acked[k]); }
    }
  }

  lemma {:induction false} FormatKeeps(items: seq<Item>, x: Item, block: Text)
    requires x in items && Occurs(block, x.text)
    ensures Occurs(block, Format(items))
  {
    var last := items[|items| - 1];
    if |items| == 1 {
      OccursWithin(block, CARRY_OVER, x.text, "");
      assert CARRY_OVER + x.text + "" == CARRY_OVER + x.text;
    } else if x == last {
      var before := Format(items[..|items| - 1]) + "\n\n" + CARRY_OVER;
      OccursWithin(block, before, x.text, "");
      assert before + x.text + "" == Format(items);
    } else {
      assert items == items[..|items| - 1] + [last];
      FormatKeeps(items[..|items| - 1], x, block);
      OccursWithin(block, "", Format(items[..|items| - 1]), "\n\n" + CARRY_OVER + last.text);
      assert "" + Format(items[..|items| - 1]) + ("\n\n" + CARRY_OVER + last.text) == Format(items);
    }
  }

  lemma StaysDelivered(s: Store, prompt: Text, block: Text)
    requires Delivered(s, block)
    ensures Delivered(s.(delivered := s.delivered + [prompt]), block)
  {
    var j :| 0 <= j < |s.delivered| && Occurs(block, s.delivered[j]);
    assert (s.delivered + [prompt])[j] == s.delivered[j];
  }

  /** A finished knowledge run was given all that waited, so its input may be cleared. */
  lemma DeliverSteps(s: Store, t: Store)
    requires Safe(s) && t == Apply(s, Deliver(Format(s.carry)))
    ensures Safe(t) && Safe(Apply(t, ClearCarry))
  {
    forall k | k in s.acked ensures Delivered(t, Strip(s.acked[k].episode)) && Secured(t, k.0, s.acked[k]) {
      assert Secured(s, k.0, s.acked[k]);
      GivenToRun(s, t, k.0, Strip(s.acked[k].episode));
    }
    var u := Apply(t, ClearCarry);
    forall k | k in u.acked ensures Secured(u, k.0, u.acked[k]) { assert Delivered(t, Strip(s.acked[k].episode)); }
  }

  lemma GivenToRun(s: Store, t: Store, date: int, block: Text)
    requires Reaches(s, date, block) && block != "" && t == Apply(s, Deliver(Format(s.carry)))
    ensures Delivered(t, block)
  {
    if Delivered(s, block) {
      StaysDelivered(s, Format(s.carry), block);
    } else if Pending(s.carry, date) {
      var x := FindItem(s.carry, date);
      FormatKeeps(s.carry, x, block);
      assert t.delivered[|s.delivered|] == Format(s.carry);
    } else {
      NoItem(s.carry, date);
      NothingInEmpty(block);
    }
  }

  // ---------------------------------------------------------------- a crash anywhere

  /** The day has nothing new, or what it drops from the carryover is not owed, nor will be after the acknowledgement. */
  ghost predicate DropsNothingOwed(s: Store, day: Day) {
    var done := Fresh(s, day);
    done == [] ||
    (NoOwedDropped(s, day.date)
     && (Dropped(s.carry, day.date, day.date) ==> Delivered(s, Strip(MergeParts(Parts(done))))))
  }

  lemma PhaseASafe(s: Store, day: Day, k: nat)
    requires Safe(s) && DropsNothingOwed(s, day) && k <= |PhaseAWrites(s, day)|
    ensures Safe(ApplyAll(s, PhaseAWrites(s, day)[..k]))
  {
    var done := Fresh(s, day);
    var ws := PhaseAWrites(s, day);
    if done != [] {
      var merged := MergeParts(Parts(done));
      FreshIs(s, day, 0);
      MergedCovers(done, 0);
      EpisodeStep(s, day.date, merged);
      var s1 := Apply(s, ws[0]);
      assert NoOwedDropped(s1, day.date) by { SameOwed(s, s1); }
      CarryStep(s1, day.date, merged);
      var s2 := Apply(s1, ws[1]);
      forall i | 0 <= i < |done| ensures CoversLines(merged, Extracted(done[i])) { MergedCovers(done, i); }
      AckStep(s2, day.date, done, merged);
      Unfold(s, ws, k);
    } else {
      assert ws[..k] == [];
    }
  }

  lemma SameOwed(s: Store, t: Store)
    requires t.acked == s.acked && t.delivered == s.delivered
    ensures forall d :: Owed(t, d) <==> Owed(s, d)
  {
  }

  lemma {:induction false} Unfold(s: Store, ws: seq<Write>, k: nat)
    requires k <= |ws|
    ensures k == 0 ==> ApplyAll(s, ws[..k]) == s
    ensures k == 1 ==> ApplyAll(s, ws[..k]) == Apply(s, ws[0])
    ensures k == 2 ==> ApplyAll(s, ws[..k]) == Apply(Apply(s, ws[0]), ws[1])
    ensures k == 3 ==> ApplyAll(s, ws[..k]) == Apply(Apply(Apply(s, ws[0]), ws[1]), ws[2])
  {
    if 0 < k <= 3 {
      Unfold(s, ws, k - 1);
      assert ws[..k][..k - 1] == ws[..k - 1];
    }
  }

  lemma {:induction false} ApplyConcat(s: Store, v: seq<Write>, w: seq<Write>)
    ensures ApplyAll(s, v + w) == ApplyAll(ApplyAll(s, v), w)
  {
    if w == [] {
      assert v + w == v;
    } else {
      assert (v + w)[..|v + w| - 1] == v + w[..|w| - 1];
      ApplyConcat(s, v, w[..|w| - 1]);
    }
  }

  lemma CrashAnywhereSafe(s: Store, day: Day, k: nat)
    requires Safe(s) && DropsNothingOwed(s, day) && k <= |Writes(s, day)|
    ensures Safe(ApplyAll(s, Writes(s, day)[..k]))
  {
    var a := PhaseAWrites(s, day);
    WritesAre(s, day, a, k);
    if k <= |a| {
      PhaseASafe(s, day, k);
    } else {
      assert a[..|a|] == a;
      PhaseASafe(s, day, |a|);
      PhaseBAfter(s, a, ApplyAll(s, a), KnowledgeWrites(ApplyAll(s, a)), k - |a|);
    }
  }

  lemma WritesAre(s: Store, day: Day, a: seq<Write>, k: nat)
    requires a == PhaseAWrites(s, day) && k <= |Writes(s, day)|
    ensures k <= |a| ==> Writes(s, day)[..k] == a[..k]
    ensures k > |a| ==> k - |a| <= 2 && Writes(s, day)[..k] == a + KnowledgeWrites(ApplyAll(s, a))[..k - |a|]
  {
  }

  lemma PhaseBAfter(s: Store, a: seq<Write>, m: Store, b: seq<Write>, j: nat)
    requires m == ApplyAll(s, a) && Safe(m) && b == KnowledgeWrites(m) && j <= 2
    ensures Safe(ApplyAll(s, a + b[..j]))
  {
    PhaseBSafe(m, b, j);
    ApplyConcat(s, a, b[..j]);
  }

  lemma PhaseBSafe(s: Store, ws: seq<Write>, k: nat)
    requires Safe(s) && ws == KnowledgeWrites(s) && k <= 2
    ensures Safe(ApplyAll(s, ws[..k]))
  {
    DeliverSteps(s, Apply(s, ws[0]));
    Unfold(s, ws, k);
  }

  // ---------------------------------------------------------------- the condition is exact

  /** The store once phase A of a day is done. */
  function Noted(s: Store, day: Day): Store { ApplyAll(s, PhaseAWrites(s, day)) }

  /** What a day with news notes. */
  ghost predicate News(s: Store, day: Day, done: seq<Work>, merged: Text) {
    done == Fresh(s, day) && done != [] && merged == MergeParts(Parts(done))
  }

  lemma NotedIs(s: Store, day: Day, done: seq<Work>, merged: Text, t: Store)
    requires News(s, day, done, merged) && t == Noted(s, day)
    ensures t.carry == Record(s.carry, day.date, merged) && t.acked == AckAll(s.acked, day.date, done, merged)
    ensures t.delivered == s.delivered && Usable(merged)
  {
    var ws := PhaseAWrites(s, day);
    assert ws[..3] == ws;
    Unfold(s, ws, 3);
    FreshIs(s, day, 0);
    MergedCovers(done, 0);
  }

  lemma {:induction false} AckAllHas(acked: map<(int, Chunk), Ack>, date: int, done: seq<Work>, text: Text)
    requires done != []
    ensures exists c :: (date, c) in AckAll(acked, date, done, text) && AckAll(acked, date, done, text)[(date, c)].episode == text
  {
    var last := (date, done[|done| - 1].chunk);
    assert last in AckAll(acked, date, done, text);
    assert AckAll(acked, date, done, text)[last].episode == text;
  }

  lemma {:induction false} AckAllKeeps(acked: map<(int, Chunk), Ack>, date: int, done: seq<Work>, text: Text, k: (int, Chunk))
    requires k in acked && forall i :: 0 <= i < |done| ==> (date, done[i].chunk) !in acked
    ensures k in AckAll(acked, date, done, text) && AckAll(acked, date, done, text)[k] == acked[k]
  {
    if done != [] { AckAllKeeps(acked, date, done[..|done| - 1], text, k); }
  }

  lemma StillOwed(s: Store, day: Day, done: seq<Work>, merged: Text, t: Store, d: int)
    requires News(s, day, done, merged) && t == Noted(s, day) && Owed(s, d)
    ensures Owed(t, d)
  {
    NotedIs(s, day, done, merged, t);
    forall i | 0 <= i < |done| ensures (day.date, done[i].chunk) !in s.acked { FreshIs(s, day, i); }
    var c :| (d, c) in s.acked && Usable(s.acked[(d, c)].episode) && !Delivered(s, Strip(s.acked[(d, c)].episode));
    AckAllKeeps(s.acked, day.date, done, merged, (d, c));
  }

  lemma NewlyOwed(s: Store, day: Day, done: seq<Work>, merged: Text, t: Store)
    requires News(s, day, done, merged) && t == Noted(s, day) && !Delivered(s, Strip(merged))
    ensures Owed(t, day.date)
  {
    NotedIs(s, day, done, merged, t);
    AckAllHas(s.acked, day.date, done, merged);
  }

  lemma DroppingLoses(s: Store, day: Day, done: seq<Work>, merged: Text, t: Store, d: int)
    requires News(s, day, done, merged) && t == Noted(s, day) && SortedByDate(s.carry) && Dropped(s.carry, day.date, d)
    requires Owed(s, d) || (d == day.date && !Delivered(s, Strip(merged)))
    ensures !Safe(t)
  {
    NotedIs(s, day, done, merged, t);
    RecordPending(s.carry, day.date, merged, d);
    if Owed(s, d) { StillOwed(s, day, done, merged, t, d); } else { NewlyOwed(s, day, done, merged, t); }
    LostDay(t, d);
  }

  /** After phase A the promise holds exactly if the day drops nothing owed. */
  lemma SafeIffNothingOwedDropped(s: Store, day: Day)
    requires Safe(s)
    ensures Safe(Noted(s, day)) <==> DropsNothingOwed(s, day)
  {
    var ws := PhaseAWrites(s, day);
    if DropsNothingOwed(s, day) {
      assert ws[..|ws|] == ws;
      PhaseASafe(s, day, |ws|);
    } else {
      var done := Fresh(s, day);
      var merged := MergeParts(Parts(done));
      assert News(s, day, done, merged);
      if NoOwedDropped(s, day.date) {
        DroppingLoses(s, day, done, merged, Noted(s, day), day.date);
      } else {
        var d :| Dropped(s.carry, day.date, d) && Owed(s, d);
        DroppingLoses(s, day, done, merged, Noted(s, day), d);
      }
    }
  }

  /** Fewer than three other days are waiting, or the day has nothing new. */
  predicate HasRoom(s: Store, day: Day) {
    Fresh(s, day) == [] || Others(s.carry, day.date) < CARRYOVER_MAX_DAYS
  }

  /** Room means that no day is dropped. */
  lemma RoomIffNoneDropped(s: Store, day: Day, done: seq<Work>, merged: Text)
    requires SortedByDate(s.carry) && News(s, day, done, merged)
    ensures HasRoom(s, day) <==> forall d :: !Dropped(s.carry, day.date, d)
  {
    NotedIs(s, day, done, merged, Noted(s, day));
    RecordKeepsDaysIffRoom(s.carry, day.date, merged);
    forall d ensures Pending(Record(s.carry, day.date, merged), d) <==> (Pending(s.carry, d) || d == day.date) && !Dropped(s.carry, day.date, d) {
      RecordPending(s.carry, day.date, merged, d);
    }
  }

  lemma RoomIsEnough(s: Store, day: Day)
    requires SortedByDate(s.carry) && HasRoom(s, day)
    ensures DropsNothingOwed(s, day)
  {
    var done := Fresh(s, day);
    if done != [] { RoomIffNoneDropped(s, day, done, MergeParts(Parts(done))); }
  }

  /** Every waiting day holds something owed. */
  ghost predicate AllOwed(s: Store) { forall d :: Pending(s.carry, d) ==> Owed(s, d) }

  /** While every waiting day is owed and the new day's episode is new, the condition is just room. */
  lemma SafeIffRoom(s: Store, day: Day)
    requires Safe(s) && AllOwed(s)
    requires forall done, merged :: News(s, day, done, merged) ==> !Delivered(s, Strip(merged))
    ensures Safe(Noted(s, day)) <==> HasRoom(s, day)
  {
    SafeIffNothingOwedDropped(s, day);
    if HasRoom(s, day) {
      RoomIsEnough(s, day);
    } else {
      var done := Fresh(s, day);
      var merged := MergeParts(Parts(done));
      assert News(s, day, done, merged);
      RoomIffNoneDropped(s, day, done, merged);
      var d :| Dropped(s.carry, day.date, d);
      assert Pending(s.carry, d) || d == day.date;
    }
  }

  // ---------------------------------------------------------------- whole histories

  datatype Attempt = Attempt(day: Day, writes: nat)

  const EMPTY := Store(map[], [], map[], [])

  function Survivors(s: Store, a: Attempt): nat {
    if a.writes < |Writes(s, a.day)| then a.writes else |Writes(s, a.day)|
  }

  function After(s: Store, a: Attempt): Store { ApplyAll(s, Writes(s, a.day)[..Survivors(s, a)]) }

  /**
   Wherever the run dies, the merged episode of each acknowledged chunk, which has all lines extracted
   from it, waits in one piece in the carryover or was given to a knowledge run that returned not
   truncated, and it is in the day's episode file.
   */
  ghost predicate SafeWherever(s: Store, day: Day) {
    forall k: nat :: k <= |Writes(s, day)| ==> Safe(ApplyAll(s, Writes(s, day)[..k]))
  }

  lemma SafeWhereverIff(s: Store, day: Day)
    requires Safe(s)
    ensures SafeWherever(s, day) <==> DropsNothingOwed(s, day)
  {
    if DropsNothingOwed(s, day) {
      forall k: nat | k <= |Writes(s, day)| ensures Safe(ApplyAll(s, Writes(s, day)[..k])) { CrashAnywhereSafe(s, day, k); }
    }
    if SafeWherever(s, day) {
      var a := PhaseAWrites(s, day);
      assert Writes(s, day)[..|a|] == a;
      SafeIffNothingOwedDropped(s, day);
    }
  }

  /** Safe at the start and wherever any of the runs could die. */
  ghost predicate SafeThroughout(s: Store, history: seq<Attempt>)
    decreases |history|
  {
    Safe(s) && (history == [] || (SafeWherever(s, history[0].day) && SafeThroughout(After(s, history[0]), history[1..])))
  }

  ghost predicate NeverDropsOwed(s: Store, history: seq<Attempt>)
    decreases |history|
  {
    history == [] || (DropsNothingOwed(s, history[0].day) && NeverDropsOwed(After(s, history[0]), history[1..]))
  }

  /** A history of finished, truncated and crashed runs loses nothing acknowledged exactly if none of them drops anything owed. */
  lemma {:induction false} HistorySafe(s: Store, history: seq<Attempt>)
    requires Safe(s)
    ensures SafeThroughout(s, history) <==> NeverDropsOwed(s, history)
    decreases |history|
  {
    if history != [] {
      var a, t := history[0], After(s, history[0]);
      SafeWhereverIff(s, a.day);
      if SafeWherever(s, a.day) {
        assert Safe(t);
        HistorySafe(t, history[1..]);
      }
    }
  }

  // ---------------------------------------------------------------- a history that loses

  /** A day with one usable chunk whose run is cut off after the acknowledgement. */
  predicate LoneDay(day: Day) { |day.work| == 1 && Usable(Extracted(day.work[0])) && !day.phaseB.Completed? }

  /** So many days wait, all owed, none delivered, all before the given date. */
  ghost predicate Backlog(s: Store, n: nat, date: int) {
    && Safe(s) && AllOwed(s) && s.delivered == [] && |s.carry| == n
    && (forall i :: 0 <= i < |s.carry| ==> s.carry[i].date < date) && (forall k :: k in s.acked ==> k.0 < date)
  }

  lemma LoneFresh(s: Store, day: Day)
    requires LoneDay(day) && (forall k :: k in s.acked ==> k.0 < day.date)
    ensures Fresh(s, day) == day.work
  {
    assert (day.date, day.work[0].chunk) !in s.acked;
    FilterAll(day.work, Unwritten(s, day.date));
  }

  lemma CutAfterAck(s: Store, day: Day)
    requires LoneDay(day) && (forall k :: k in s.acked ==> k.0 < day.date)
    ensures After(s, Attempt(day, 3)) == Noted(s, day)
  {
    LoneFresh(s, day);
    var ws := Writes(s, day);
    assert ws[..|ws|] == ws;
  }

  lemma RecordDates(items: seq<Item>, date: int, episode: Text)
    requires SortedByDate(items) && Usable(episode) && Others(items, date) < CARRYOVER_MAX_DAYS
    ensures |Record(items, date, episode)| == Others(items, date) + 1
    ensures forall x :: x in Record(items, date, episode) ==> x.date == date || x in items
  {
    var it := Item(date, Extend(ItemFor(items, date), Strip(episode)));
    InsertMembers(items, it);
    InsertKeeps(items, it);
  }

  /** The carryover and the checkpoint after a day that had room. */
  lemma NotedDates(s: Store, day: Day, done: seq<Work>, merged: Text, t: Store)
    requires News(s, day, done, merged) && t == Noted(s, day)
    requires SortedByDate(s.carry) && Others(s.carry, day.date) < CARRYOVER_MAX_DAYS
    ensures |t.carry| == Others(s.carry, day.date) + 1 && t.delivered == s.delivered
    ensures forall x :: x in t.carry ==> x.date == day.date || x in s.carry
    ensures forall k :: k in t.acked ==> k.0 == day.date || k in s.acked
  {
    NotedIs(s, day, done, merged, t);
    RecordDates(s.carry, day.date, merged);
    forall k | k in t.acked ensures k.0 == day.date || k in s.acked { AckAllIs(s.acked, day.date, done, merged, k); }
  }

  lemma OwedAfter(s: Store, day: Day, done: seq<Work>, merged: Text, t: Store, d: int)
    requires News(s, day, done, merged) && t == Noted(s, day) && AllOwed(s) && s.delivered == [] && Pending(t.carry, d)
    requires forall x :: x in t.carry ==> x.date == day.date || x in s.carry
    ensures Owed(t, d)
  {
    if d == day.date {
      NewlyOwed(s, day, done, merged, t);
    } else {
      var x := FindItem(t.carry, d);
      MemberPending(s.carry, x);
      StillOwed(s, day, done, merged, t, d);
    }
  }

  lemma BacklogGrows(s: Store, n: nat, day: Day, t: Store)
    requires Backlog(s, n, day.date) && n < CARRYOVER_MAX_DAYS && LoneDay(day) && t == Noted(s, day)
    ensures Backlog(t, n + 1, day.date + 1)
  {
    LoneFresh(s, day);
    NoneOfDate(s.carry, day.date);
    SafeIffRoom(s, day);
    var merged := MergeParts(Parts(day.work));
    NotedDates(s, day, day.work, merged, t);
    forall i | 0 <= i < |t.carry| ensures t.carry[i].date < day.date + 1 { assert t.carry[i] in t.carry; }
    forall d | Pending(t.carry, d) ensures Owed(t, d) { OwedAfter(s, day, day.work, merged, t, d); }
  }

  /** Nothing new for a while. */
  lemma BacklogWaits(s: Store, n: nat, date: int, later: int)
    requires Backlog(s, n, date) && date <= later
    ensures Backlog(s, n, later)
  {
  }

  lemma BacklogOverflows(s: Store, day: Day)
    requires Backlog(s, CARRYOVER_MAX_DAYS, day.date) && LoneDay(day)
    ensures !Safe(Noted(s, day))
  {
    LoneFresh(s, day);
    NoneOfDate(s.carry, day.date);
    SafeIffRoom(s, day);
  }

  /** The store after these days, each cut off after its acknowledgement. */
  function AfterDays(days: seq<Day>): Store {
    if days == [] then EMPTY else After(AfterDays(days[..|days| - 1]), Attempt(days[|days| - 1], 3))
  }

  lemma {:induction false} LastDay(days: seq<Day>, s: Store, last: Day)
    requires days != [] && last == days[|days| - 1] && LoneDay(last) && s == AfterDays(days[..|days| - 1])
    requires forall k :: k in s.acked ==> k.0 < last.date
    ensures AfterDays(days) == Noted(s, last)
  {
    CutAfterAck(s, last);
    assert AfterDays(days) == After(s, Attempt(last, 3));
  }

  predicate Increasing(days: seq<Day>) { forall i, j :: 0 <= i < j < |days| ==> days[i].date < days[j].date }
  predicate AllLone(days: seq<Day>) { forall i :: 0 <= i < |days| ==> LoneDay(days[i]) }

  lemma {:induction false} BacklogOf(days: seq<Day>, date: int) returns (s: Store)
    requires |days| <= CARRYOVER_MAX_DAYS && AllLone(days) && Increasing(days)
    requires forall i :: 0 <= i < |days| ==> days[i].date < date
    ensures s == AfterDays(days) && Backlog(s, |days|, date)
    decreases |days|
  {
    if days == [] {
      s := EMPTY;
    } else {
      var last := days[|days| - 1];
      var before := BacklogOf(days[..|days| - 1], last.date);
      s := Noted(before, last);
      LastDay(days, before, last);
      BacklogGrows(before, |days| - 1, last, s);
      BacklogWaits(s, |days|, last.date + 1, date);
    }
  }

  /**
   Four interrupted days, each with one usable chunk: the first day's acknowledged episode is neither
   in the carryover nor with any finished knowledge run.
   */
  lemma FourInterruptedDaysLose(days: seq<Day>)
    requires |days| == 4 && AllLone(days) && Increasing(days)
    ensures !Safe(AfterDays(days))
  {
    var last := days[3];
    var s := BacklogOf(days[..3], last.date);
    LastDay(days, s, last);
    BacklogOverflows(s, last);
  }
}
