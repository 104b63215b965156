/** When a daily consolidation acknowledges, when it clears the carryover, and what its files say, in order. */
module Delivery {
  import opened Texts
  import opened Timeline
  import opened Consolidation
  import opened SeqFilter

  // ---------------------------------------------------------------- what is acknowledged

  /** A model answer, asked for once more if it was empty, has something to say besides its code fence. */
  predicate Telling(w: Work) { Usable(StripCodeFence(if w.first == "" then w.retry else w.first)) }

  lemma {:induction false} AckAllKeys(acked: map<(int, Chunk), Ack>, date: int, done: seq<Work>, text: Text, k: (int, Chunk))
    ensures k in AckAll(acked, date, done, text) <==> k in acked || (k.0 == date && Among(done, k.1))
  {
    if done != [] {
      var shorter, last := done[..|done| - 1], done[|done| - 1];
      AckAllKeys(acked, date, shorter, text, k);
      assert forall i :: 0 <= i < |shorter| ==> shorter[i] == done[i];
      if Among(done, k.1) {
        var i :| 0 <= i < |done| && done[i].chunk == k.1;
        assert i < |shorter| ==> shorter[i].chunk == k.1;
      }
    }
  }

  /** A chunk of the day whose answer has something to say. */
  predicate Worked(day: Day, c: Chunk) { exists i :: 0 <= i < |day.work| && day.work[i].chunk == c && Telling(day.work[i]) }

  predicate Among(done: seq<Work>, c: Chunk) { exists i :: 0 <= i < |done| && done[i].chunk == c }

  lemma TellingIs(w: Work)
    ensures Telling(w) <==> Usable(Extracted(w))
  {
  }

  lemma AmongIsWorked(s: Store, day: Day, done: seq<Work>, i: nat, w: Work)
    requires done == Fresh(s, day) && i < |done| && w == done[i]
    ensures Worked(day, w.chunk)
  {
    FreshIs(s, day, i);
    TellingIs(w);
    var j :| 0 <= j < |day.work| && day.work[j] == w;
  }

  lemma WorkedIsAmong(s: Store, day: Day, done: seq<Work>, i: nat, w: Work)
    requires done == Fresh(s, day) && i < |day.work| && w == day.work[i] && Telling(w) && (day.date, w.chunk) !in s.acked
    ensures Among(done, w.chunk)
  {
    TellingIs(w);
    FilterMember(day.work, Unwritten(s, day.date));
    assert w in day.work;
    var j :| 0 <= j < |done| && done[j] == w;
  }

  lemma FreshAmong(s: Store, day: Day, done: seq<Work>, c: Chunk)
    requires done == Fresh(s, day)
    ensures Among(done, c) ==> Worked(day, c)
    ensures Worked(day, c) && (day.date, c) !in s.acked ==> Among(done, c)
  {
    if Among(done, c) {
      var i :| 0 <= i < |done| && done[i].chunk == c;
      AmongIsWorked(s, day, done, i, done[i]);
    }
    if Worked(day, c) && (day.date, c) !in s.acked {
      var i :| 0 <= i < |day.work| && day.work[i].chunk == c && Telling(day.work[i]);
      WorkedIsAmong(s, day, done, i, day.work[i]);
    }
  }

  lemma NotedAcks(s: Store, day: Day, done: seq<Work>, m: Store, k: (int, Chunk))
    requires done == Fresh(s, day) && m == Noted(s, day)
    ensures k in m.acked <==> k in s.acked || (k.0 == day.date && Among(done, k.1))
  {
    if done != [] {
      NotedIs(s, day, done, MergeParts(Parts(done)), m);
      AckAllKeys(s.acked, day.date, done, MergeParts(Parts(done)), k);
    }
  }

  /** Phase A acknowledges exactly the day's chunks whose answer has something to say; all others can be asked about again. */
  lemma AcknowledgesExactly(s: Store, day: Day, m: Store, d: int, c: Chunk)
    requires m == Noted(s, day)
    ensures (d, c) in m.acked <==> (d, c) in s.acked || (d == day.date && Worked(day, c))
  {
    var done := Fresh(s, day);
    NotedAcks(s, day, done, m, (d, c));
    FreshAmong(s, day, done, c);
  }

  // ---------------------------------------------------------------- when the carryover is cleared

  /** The day still waits, with every block it held. */
  ghost predicate StillWaits(s: Store, t: Store, d: int) {
    Pending(t.carry, d) && forall block :: block != "" && Occurs(block, ItemFor(s.carry, d)) ==> Occurs(block, ItemFor(t.carry, d))
  }

  /** Nothing was handed to a knowledge run, and every waiting day still waits, unless news took its place. */
  ghost predicate NothingCleared(s: Store, day: Day, t: Store) {
    && t.delivered == s.delivered
    && forall d :: Pending(s.carry, d) && !(Fresh(s, day) != [] && Dropped(s.carry, day.date, d)) ==> StillWaits(s, t, d)
  }

  lemma RecordWaits(s: Store, date: int, episode: Text, d: int, t: Store)
    requires SortedByDate(s.carry) && Usable(episode) && t.carry == Record(s.carry, date, episode)
    requires Pending(s.carry, d) && !Dropped(s.carry, date, d)
    ensures StillWaits(s, t, d)
  {
    RecordPending(s.carry, date, episode, d);
    forall block | block != "" && Occurs(block, ItemFor(s.carry, d)) ensures Occurs(block, ItemFor(t.carry, d)) {
      RecordKeeps(s.carry, date, episode, d, block);
    }
  }

  /** Phase A, wherever it stops, clears nothing. */
  lemma PhaseAClearsNothing(s: Store, day: Day, k: nat)
    requires SortedByDate(s.carry) && k <= |PhaseAWrites(s, day)|
    ensures NothingCleared(s, day, ApplyAll(s, PhaseAWrites(s, day)[..k]))
  {
    var done, ws := Fresh(s, day), PhaseAWrites(s, day);
    var t := ApplyAll(s, ws[..k]);
    if done == [] {
      assert ws[..k] == [];
    } else {
      FreshIs(s, day, 0);
      MergedCovers(done, 0);
      Unfold(s, ws, k);
      if k >= 2 {
        forall d | Pending(s.carry, d) && !Dropped(s.carry, day.date, d) ensures StillWaits(s, t, d) {
          RecordWaits(s, day.date, MergeParts(Parts(done)), d, t);
        }
      }
    }
  }

  /** A knowledge run that was truncated or aborted, or a run that never got there, hands nothing over and clears nothing. */
  lemma UnfinishedClearsNothing(s: Store, day: Day, k: nat)
    requires SortedByDate(s.carry) && k <= |Writes(s, day)| && (day.phaseB.Truncated? || day.phaseB.Aborted? || k <= |PhaseAWrites(s, day)|)
    ensures NothingCleared(s, day, ApplyAll(s, Writes(s, day)[..k]))
  {
    var a := PhaseAWrites(s, day);
    assert k <= |a| ==> Writes(s, day)[..k] == a[..k];
    PhaseAClearsNothing(s, day, k);
  }

  lemma {:induction false} ThenDelivers(s: Store, a: seq<Write>, m: Store, longer: seq<Write>, prompt: Text)
    requires m == ApplyAll(s, a) && |longer| == |a| + 1 && longer[..|a|] == a && longer[|a|] == Deliver(prompt)
    ensures ApplyAll(s, longer) == m.(delivered := m.delivered + [prompt])
  {
    assert longer[..|longer| - 1] == a;
  }

  lemma {:induction false} ThenClears(s: Store, a: seq<Write>, m: Store, longer: seq<Write>)
    requires m == ApplyAll(s, a) && |longer| == |a| + 1 && longer[..|a|] == a && longer[|a|] == ClearCarry
    ensures ApplyAll(s, longer) == m.(carry := [])
  {
    assert longer[..|longer| - 1] == a;
  }

  /** A knowledge run that finished was given all that waited, in one prompt, and only then is nothing waiting any more. */
  lemma FinishedDelivers(s: Store, day: Day, m: Store, prompt: Text, ws: seq<Write>, n: nat)
    requires day.phaseB.Completed? && m == Noted(s, day) && m.carry != [] && prompt == Format(m.carry)
    requires ws == Writes(s, day) && n == |PhaseAWrites(s, day)|
    ensures |ws| == n + 2
    ensures ApplyAll(s, ws[..n + 1]) == m.(delivered := s.delivered + [prompt])
    ensures ApplyAll(s, ws) == m.(delivered := s.delivered + [prompt], carry := [])
  {
    NotedDelivers(s, day, m);
    LastWrites(s, day, m, prompt, ws, n);
    ThenDelivers(s, ws[..n], m, ws[..n + 1], prompt);
    ThenClears(s, ws[..n + 1], m.(delivered := s.delivered + [prompt]), ws);
  }

  lemma LastWrites(s: Store, day: Day, m: Store, prompt: Text, ws: seq<Write>, n: nat)
    requires day.phaseB.Completed? && m == Noted(s, day) && m.carry != [] && prompt == Format(m.carry)
    requires ws == Writes(s, day) && n == |PhaseAWrites(s, day)|
    ensures |ws| == n + 2 && ws[..n] == PhaseAWrites(s, day) && ws[n] == Deliver(prompt) && ws[n + 1] == ClearCarry
    ensures ws[..n + 1][..n] == ws[..n]
  {
  }

  lemma NotedDelivers(s: Store, day: Day, m: Store)
    requires m == Noted(s, day)
    ensures m.delivered == s.delivered
  {
    var done := Fresh(s, day);
    if done != [] { NotedIs(s, day, done, MergeParts(Parts(done)), m); }
  }

  /** An attempt that got to hand something over: its knowledge run finished, something waited, and it lived long enough. */
  predicate HandsOver(s: Store, a: Attempt) {
    a.day.phaseB == Completed && Noted(s, a.day).carry != [] && a.writes > |PhaseAWrites(s, a.day)|
  }

  function HandOvers(s: Store, history: seq<Attempt>): seq<Text>
    decreases |history|
  {
    if history == [] then []
    else HandedOver(s, history[0]) + HandOvers(After(s, history[0]), history[1..])
  }

  function HandedOver(s: Store, a: Attempt): seq<Text> { if HandsOver(s, a) then [Format(Noted(s, a.day).carry)] else [] }

  lemma AttemptDelivers(s: Store, a: Attempt, t: Store)
    requires t == After(s, a)
    ensures t.delivered == s.delivered + HandedOver(s, a)
  {
    var ws, n, k := Writes(s, a.day), |PhaseAWrites(s, a.day)|, Survivors(s, a);
    if HandsOver(s, a) {
      FinishedDelivers(s, a.day, Noted(s, a.day), Format(Noted(s, a.day).carry), ws, n);
      assert k == n + 1 || (k == |ws| && ws[..k] == ws);
    } else {
      assert ws[..k] == PhaseAWrites(s, a.day)[..k];
      PhaseADelivers(s, a.day, k);
    }
  }

  lemma PhaseADelivers(s: Store, day: Day, k: nat)
    requires k <= |PhaseAWrites(s, day)|
    ensures ApplyAll(s, PhaseAWrites(s, day)[..k]).delivered == s.delivered
  {
    Unfold(s, PhaseAWrites(s, day), k);
  }

  function AfterAll(s: Store, history: seq<Attempt>): Store
    decreases |history|
  {
    if history == [] then s else AfterAll(After(s, history[0]), history[1..])
  }

  /** Over any history the prompts delivered are exactly one for each run that got to hand its carryover over, in order. */
  lemma {:induction false} DeliveredExactly(s: Store, history: seq<Attempt>)
    ensures AfterAll(s, history).delivered == s.delivered + HandOvers(s, history)
    decreases |history|
  {
    if history != [] {
      var t, rest, texts := FirstAttempt(s, history);
      DeliveredExactly(t, rest);
      InThree(s.delivered, texts, HandOvers(t, rest));
    }
  }

  lemma InThree(x: seq<Text>, y: seq<Text>, z: seq<Text>)
    ensures (x + y) + z == x + (y + z)
  {
  }

  lemma FirstAttempt(s: Store, history: seq<Attempt>) returns (t: Store, rest: seq<Attempt>, texts: seq<Text>)
    requires history != []
    ensures |rest| == |history| - 1 && AfterAll(s, history) == AfterAll(t, rest) && HandOvers(s, history) == texts + HandOvers(t, rest)
    ensures t.delivered == s.delivered + texts
  {
    t, rest, texts := After(s, history[0]), history[1..], HandedOver(s, history[0]);
    AttemptDelivers(s, history[0], t);
  }

  // ---------------------------------------------------------------- the order of what is written

  /** The day's file: what was noted before, then the new timeline; nothing is written for an empty one. */
  lemma EpisodeInOrder(existing: Text, timeline: Text)
    ensures !Usable(timeline) ==> MergedEpisode(existing, timeline) == existing
    ensures Usable(timeline) ==> EndsIn(MergedEpisode(existing, timeline), Strip(timeline) + "\n")
    ensures Usable(timeline) && Usable(existing) ==>
      Occurs(Strip(existing), MergedEpisode(existing, timeline)[..|MergedEpisode(existing, timeline)| - |Strip(timeline)| - 1])
  {
    if Usable(timeline) {
      if Usable(existing) {
        FrameInOrder(RAW_NOTES, Strip(existing), TIMELINE, Strip(timeline));
      } else {
        FrameInOrder("", "", "", Strip(timeline));
      }
    }
  }

  lemma FrameInOrder(first: Text, notes: Text, second: Text, summary: Text)
    ensures var t := Framed(first, notes, second, summary);
      EndsIn(t, summary + "\n") && Occurs(notes, t[..|t| - |summary| - 1])
  {
    var t := Framed(first, notes, second, summary);
    var n := |first| + |notes| + |second|;
    assert t == (first + notes + second) + (summary + "\n");
    assert t[n..] == summary + "\n" && t[..n] == first + notes + second;
    OccursItself(notes);
    OccursWithin(notes, first, notes, second);
  }

  /** The prompt presents the waiting days in their order. */
  lemma {:induction false} PromptInOrder(items: seq<Item>, k: nat)
    requires k <= |items|
    ensures Format(items[..k]) <= Format(items)
    ensures items != [] ==> EndsIn(Format(items), items[|items| - 1].text)
  {
    if items != [] {
      var last := items[|items| - 1].text;
      assert EndsIn(Format(items), last) by {
        if |items| == 1 {
          assert Format(items)[|CARRY_OVER|..] == last;
        } else {
          var before := Format(items[..|items| - 1]) + ("\n\n" + CARRY_OVER);
          assert Format(items) == before + last;
        }
      }
      if k < |items| {
        PromptInOrder(items[..|items| - 1], k);
        assert items[..|items| - 1][..k] == items[..k];
        if |items| == 1 { assert items[..0] == []; }
      } else {
        assert items[..k] == items;
      }
    }
  }
}
