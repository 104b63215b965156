/** The daily consolidation run, performing its durable writes in order. */
module ConsolidationRun {
  import opened Texts
  import opened Timeline
  import opened Consolidation
  import opened SeqFilter

  /** The stripped headers among the lines seen so far. */
  ghost predicate SeenHeaders(seen: set<Text>, lines: seq<Text>) { forall x :: x in seen <==> SeenHeader(lines, x) }

  lemma SeenOneMore(seen: set<Text>, lines: seq<Text>, line: Text)
    requires SeenHeaders(seen, lines)
    ensures SeenHeaders(if IsHeader(line) then seen + {Strip(line)} else seen, lines + [line])
  {
    var longer := lines + [line];
    assert longer[|lines|] == line && forall i :: 0 <= i < |lines| ==> longer[i] == lines[i];
    forall x ensures SeenHeader(longer, x) <==> SeenHeader(lines, x) || (IsHeader(line) && Strip(line) == x) {
    }
  }

  lemma DropOneMore(lines: seq<Text>, line: Text)
    ensures DropRepeatedHeaders(lines + [line]) ==
      DropRepeatedHeaders(lines) + if IsHeader(line) && SeenHeader(lines, Strip(line)) then [] else [line]
  {
    assert (lines + [line])[..|lines|] == lines;
  }

  /** One line: a header seen before is skipped. */
  method AppendLine(line: Text, merged0: seq<Text>, seen0: set<Text>, ghost lines: seq<Text>)
    returns (merged: seq<Text>, seen: set<Text>)
    requires merged0 == DropRepeatedHeaders(lines) && SeenHeaders(seen0, lines)
    ensures merged == DropRepeatedHeaders(lines + [line]) && SeenHeaders(seen, lines + [line])
  {
    merged, seen := merged0, seen0;
    SeenOneMore(seen, lines, line);
    DropOneMore(lines, line);
    var stripped := Strip(line);
    if IsHeader(line) {
      if stripped in seen {
        assert seen + {stripped} == seen;
        return;
      }
      seen := seen + {stripped};
    }
    merged := merged + [line];
  }

  /** One part, line by line. */
  method AppendPart(part: seq<Text>, merged0: seq<Text>, seen0: set<Text>, ghost lines: seq<Text>)
    returns (merged: seq<Text>, seen: set<Text>)
    requires merged0 == DropRepeatedHeaders(lines) && SeenHeaders(seen0, lines)
    ensures merged == DropRepeatedHeaders(lines + part) && SeenHeaders(seen, lines + part)
  {
    merged, seen := merged0, seen0;
    assert lines + part[..0] == lines;
    for j := 0 to |part|
      invariant merged == DropRepeatedHeaders(lines + part[..j]) && SeenHeaders(seen, lines + part[..j])
    {
      assert lines + part[..j + 1] == lines + part[..j] + [part[j]];
      merged, seen := AppendLine(part[j], merged, seen, lines + part[..j]);
    }
    assert part[..|part|] == part;
  }

  /** Concatenate the parts in order, skipping header lines seen before. */
  method MergeTimelineParts(parts: seq<Text>) returns (merged: Text)
    ensures merged == MergeParts(parts)
  {
    if |parts| == 1 {
      return parts[0];
    }
    var lines: seq<Text> := [];
    var seen: set<Text> := {};
    for i := 0 to |parts|
      invariant lines == DropRepeatedHeaders(AllLines(parts[..i])) && SeenHeaders(seen, AllLines(parts[..i]))
    {
      assert parts[..i + 1][..i] == parts[..i];
      lines, seen := AppendPart(Split(parts[i]), lines, seen, AllLines(parts[..i]));
    }
    assert parts[..|parts|] == parts;
    merged := Join(lines);
  }

  /** One question, asked once more after an empty answer, and its answer without an outer code fence. */
  method AskFor(w: Work) returns (sanitized: Text, usable: bool)
    ensures sanitized == Extracted(w) && (usable <==> Usable(Extracted(w)))
  {
    var raw := w.first;
    if raw == "" {
      raw := w.retry;
    }
    sanitized := StripCodeFence(raw);
    usable := Strip(sanitized) != "";
  }

  lemma OneChunkMore(s: Store, day: Day, i: nat, w: Work)
    requires i < |day.work| && w == day.work[i]
    ensures var p := Unwritten(s, day.date);
      Filter(day.work[..i + 1], p) == Filter(day.work[..i], p) + if (day.date, w.chunk) !in s.acked && Usable(Extracted(w)) then [w] else []
  {
    FilterNext(day.work, i, Unwritten(s, day.date));
  }

  lemma OnePartMore(done: seq<Work>, w: Work)
    ensures Parts(done + [w]) == Parts(done) + [Extracted(w)]
  {
    assert (done + [w])[..|done|] == done;
  }

  class Engine {
    var episodes: map<int, Text>
    var carry: seq<Item>
    var acked: map<(int, Chunk), Ack>
    var delivered: seq<Text>

    function Value(): Store
      reads this
    {
      Store(episodes, carry, acked, delivered)
    }

    constructor ()
      ensures Value() == EMPTY
    {
      episodes, carry, acked, delivered := map[], [], map[], [];
    }

    /** Phase A: ask for an episode per unprocessed chunk. */
    method ExtractEpisodes(day: Day) returns (done: seq<Work>, parts: seq<Text>)
      ensures done == Fresh(Value(), day) && parts == Parts(done)
    {
      done, parts := [], [];
      for i := 0 to |day.work|
        invariant done == Filter(day.work[..i], Unwritten(Value(), day.date)) && parts == Parts(done)
      {
        done, parts := ExtractOne(day, i, done, parts);
      }
      assert day.work[..|day.work|] == day.work;
    }

    method ExtractOne(day: Day, i: nat, done0: seq<Work>, parts0: seq<Text>) returns (done: seq<Work>, parts: seq<Text>)
      requires i < |day.work| && done0 == Filter(day.work[..i], Unwritten(Value(), day.date)) && parts0 == Parts(done0)
      ensures done == Filter(day.work[..i + 1], Unwritten(Value(), day.date)) && parts == Parts(done)
    {
      done, parts := done0, parts0;
      var w := day.work[i];
      OneChunkMore(Value(), day, i, w);
      if (day.date, w.chunk) in acked {
        return;
      }
      var sanitized, usable := AskFor(w);
      if usable {
        OnePartMore(done, w);
        done := done + [w];
        parts := parts + [sanitized];
      }
    }

    method WriteConsolidatedEpisode(date: int, timeline: Text)
      modifies `episodes
      ensures Value() == Apply(old(Value()), WriteEpisode(date, timeline))
    {
      var existing := if date in episodes then episodes[date] else "";
      var text := existing;
      if Strip(timeline) != "" {
        if Strip(existing) == "" {
          text := Framed("", "", "", Strip(timeline));
        } else {
          text := Framed(RAW_NOTES, Strip(existing), TIMELINE, Strip(timeline));
        }
      }
      episodes := episodes[date := text];
    }

    method RecordPhaseBCarryover(date: int, episode: Text)
      modifies `carry
      ensures Value() == Apply(old(Value()), RecordCarry(date, episode))
    {
      var summary := Strip(episode);
      if summary == "" {
        return;
      }
      var existing := ItemFor(carry, date);
      if existing != "" {
        summary := if Occurs(summary, existing) then existing else existing + "\n\n" + summary;
      }
      carry := Insert(carry, Item(date, summary));
      if |carry| > CARRYOVER_MAX_DAYS {
        carry := carry[|carry| - CARRYOVER_MAX_DAYS..];
      }
    }

    method RecordConsolidatedChunks(date: int, done: seq<Work>, text: Text)
      modifies `acked
      ensures Value() == Apply(old(Value()), Acknowledge(date, done, text))
    {
      for i := 0 to |done|
        invariant acked == AckAll(old(acked), date, done[..i], text)
      {
        assert done[..i + 1][..i] == done[..i];
        acked := acked[(date, done[i].chunk) := Ack(Extracted(done[i]), text)];
      }
      assert done[..|done|] == done;
    }

    /** Phase A with its three writes: episode file, carryover, acknowledgement. */
    method RunPhaseA(day: Day)
      modifies `episodes, `carry, `acked
      ensures Value() == ApplyAll(old(Value()), PhaseAWrites(old(Value()), day))
    {
      ghost var s := Value();
      var done, parts := ExtractEpisodes(day);
      if parts != [] {
        var merged := MergeTimelineParts(parts);
        WriteConsolidatedEpisode(day.date, merged);
        RecordPhaseBCarryover(day.date, merged);
        RecordConsolidatedChunks(day.date, done, merged);
        ThreeWrites(s, day, done, merged);
      }
    }

    method RunDailyConsolidation(day: Day)
      modifies this
      ensures Value() == ApplyAll(old(Value()), Writes(old(Value()), day))
    {
      ghost var s := Value();
      RunPhaseA(day);
      if carry == [] {
        return;
      }
      var prompt := Format(carry);
      if day.phaseB.Completed? {
        TwoMoreWrites(s, PhaseAWrites(s, day), prompt);
        delivered := delivered + [prompt];
        carry := [];
      }
    }
  }

  lemma TwoMoreWrites(s: Store, a: seq<Write>, prompt: Text)
    ensures ApplyAll(s, a + [Deliver(prompt), ClearCarry]) == Apply(Apply(ApplyAll(s, a), Deliver(prompt)), ClearCarry)
  {
    var b := [Deliver(prompt), ClearCarry];
    ApplyConcat(s, a, b);
    assert b[..2] == b;
    Unfold(ApplyAll(s, a), b, 2);
  }

  lemma ThreeWrites(s: Store, day: Day, done: seq<Work>, merged: Text)
    requires News(s, day, done, merged)
    ensures ApplyAll(s, PhaseAWrites(s, day))
         == Apply(Apply(Apply(s, WriteEpisode(day.date, merged)), RecordCarry(day.date, merged)), Acknowledge(day.date, done, merged))
  {
    var ws := PhaseAWrites(s, day);
    assert ws[..3] == ws;
    Unfold(s, ws, 3);
  }
}
