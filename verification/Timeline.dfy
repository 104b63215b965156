/** Merging the timeline parts of one day: all lines in order, repeated headers once. */
module Timeline {
  import opened Texts

  predicate IsHeader(line: Text) { "## " <= Strip(line) }

  predicate SeenHeader(lines: seq<Text>, stripped: Text) {
    exists i :: 0 <= i < |lines| && IsHeader(lines[i]) && Strip(lines[i]) == stripped
  }

  function DropRepeatedHeaders(lines: seq<Text>): seq<Text> {
    if lines == [] then []
    else
      var before, last := lines[..|lines| - 1], lines[|lines| - 1];
      DropRepeatedHeaders(before) + if IsHeader(last) && SeenHeader(before, Strip(last)) then [] else [last]
  }

  function AllLines(parts: seq<Text>): seq<Text> {
    if parts == [] then [] else AllLines(parts[..|parts| - 1]) + Split(parts[|parts| - 1])
  }

  function MergeParts(parts: seq<Text>): Text {
    if |parts| == 1 then parts[0] else Join(DropRepeatedHeaders(AllLines(parts)))
  }

  /** The line is there, or it is a header that is there up to white space around it. */
  predicate LineKept(line: Text, lines: seq<Text>) { line in lines || (IsHeader(line) && SeenHeader(lines, Strip(line))) }

  ghost predicate CoversLines(t: Text, part: Text) { forall line :: line in Split(part) ==> LineKept(line, Split(t)) }

  function Bodies(lines: seq<Text>): seq<Text> {
    if lines == [] then []
    else Bodies(lines[..|lines| - 1]) + if IsHeader(lines[|lines| - 1]) then [] else [lines[|lines| - 1]]
  }

  lemma {:induction false} BodiesConcat(v: seq<Text>, w: seq<Text>)
    ensures Bodies(v + w) == Bodies(v) + Bodies(w)
  {
    if w == [] {
      assert v + w == v;
    } else {
      assert (v + w)[..|v + w| - 1] == v + w[..|w| - 1];
      BodiesConcat(v, w[..|w| - 1]);
    }
  }

  /** Body lines keep their order and number; only repeated headers go. */
  lemma {:induction false} DropKeepsBodies(lines: seq<Text>)
    ensures Bodies(DropRepeatedHeaders(lines)) == Bodies(lines)
  {
    if lines != [] {
      var before, last := lines[..|lines| - 1], lines[|lines| - 1];
      DropKeepsBodies(before);
      BodiesConcat(DropRepeatedHeaders(before), if IsHeader(last) && SeenHeader(before, Strip(last)) then [] else [last]);
      assert [last][..0] == [];
    }
  }

  lemma KeptLonger(line: Text, lines: seq<Text>, more: seq<Text>)
    requires LineKept(line, lines)
    ensures LineKept(line, lines + more)
  {
    if line !in lines {
      var i :| 0 <= i < |lines| && IsHeader(lines[i]) && Strip(lines[i]) == Strip(line);
      assert (lines + more)[i] == lines[i];
    }
  }

  lemma {:induction false} DropKeepsLines(lines: seq<Text>, line: Text)
    requires line in lines
    ensures LineKept(line, DropRepeatedHeaders(lines))
    decreases |lines|
  {
    var before, last := lines[..|lines| - 1], lines[|lines| - 1];
    var tail := if IsHeader(last) && SeenHeader(before, Strip(last)) then [] else [last];
    if line in before {
      DropKeepsLines(before, line);
      KeptLonger(line, DropRepeatedHeaders(before), tail);
    } else if tail == [] {
      var i :| 0 <= i < |before| && IsHeader(before[i]) && Strip(before[i]) == Strip(last);
      DropKeepsLines(before, before[i]);
      HeaderKept(before[i], last, DropRepeatedHeaders(before));
      KeptLonger(last, DropRepeatedHeaders(before), tail);
    }
  }

  lemma HeaderKept(header: Text, same: Text, lines: seq<Text>)
    requires LineKept(header, lines) && IsHeader(header) && Strip(header) == Strip(same)
    ensures LineKept(same, lines)
  {
    if header in lines {
      var i :| 0 <= i < |lines| && lines[i] == header;
      assert SeenHeader(lines, Strip(same));
    }
  }

  lemma {:induction false} DropIsNotEmpty(lines: seq<Text>)
    requires lines != []
    ensures DropRepeatedHeaders(lines) != []
    ensures forall x :: x in DropRepeatedHeaders(lines) ==> x in lines
  {
    var before := lines[..|lines| - 1];
    assert lines == before + [lines[|lines| - 1]];
    if before == [] {
      assert !SeenHeader(before, Strip(lines[0]));
    } else {
      DropIsNotEmpty(before);
    }
  }

  lemma {:induction false} AllLinesOf(parts: seq<Text>, i: nat)
    requires i < |parts|
    ensures forall line :: line in Split(parts[i]) ==> line in AllLines(parts)
  {
    if i < |parts| - 1 { AllLinesOf(parts[..|parts| - 1], i); }
  }

  lemma {:induction false} AllAreLines(parts: seq<Text>)
    ensures forall i :: 0 <= i < |AllLines(parts)| ==> OneLine(AllLines(parts)[i])
  {
    if parts != [] {
      AllAreLines(parts[..|parts| - 1]);
      SplitLines(parts[|parts| - 1]);
    }
  }

  /** The lines of the merged text are the lines of the parts without repeated headers. */
  lemma {:induction false} MergedLines(parts: seq<Text>)
    requires |parts| > 1
    ensures Split(MergeParts(parts)) == DropRepeatedHeaders(AllLines(parts))
  {
    var lines := DropRepeatedHeaders(AllLines(parts));
    AllLinesOf(parts, 0);
    assert Split(parts[0])[0] in AllLines(parts);
    DropIsNotEmpty(AllLines(parts));
    AllAreLines(parts);
    forall i | 0 <= i < |lines| ensures OneLine(lines[i]) {
      assert lines[i] in lines;
      var k :| 0 <= k < |AllLines(parts)| && AllLines(parts)[k] == lines[i];
    }
    SplitJoin(lines);
  }

  /** Merging loses no line of any part, except that a repeated header is kept once. */
  lemma MergeCovers(parts: seq<Text>, i: nat)
    requires i < |parts|
    ensures CoversLines(MergeParts(parts), parts[i])
  {
    if |parts| > 1 {
      MergedLines(parts);
      AllLinesOf(parts, i);
      forall line | line in Split(parts[i]) ensures LineKept(line, Split(MergeParts(parts))) {
        DropKeepsLines(AllLines(parts), line);
      }
    }
  }

  /** The body lines of the merged text are those of the parts, in order and number. */
  lemma MergeKeepsBodies(parts: seq<Text>)
    requires |parts| > 1
    ensures Bodies(Split(MergeParts(parts))) == Bodies(AllLines(parts))
  {
    MergedLines(parts);
    DropKeepsBodies(AllLines(parts));
  }

  /** A text that covers the lines of a usable one is usable. */
  lemma CoveringIsUsable(t: Text, part: Text)
    requires CoversLines(t, part) && Usable(part)
    ensures Usable(t)
  {
    UsableIsInked(part);
    var line := InkedLine(part);
    UsableIsInked(line);
    var kept := line;
    if line !in Split(t) {
      var i :| 0 <= i < |Split(t)| && IsHeader(Split(t)[i]) && Strip(Split(t)[i]) == Strip(line);
      kept := Split(t)[i];
    }
    UsableIsInked(kept);
    InkedText(t, kept);
    UsableIsInked(t);
  }

  // ---------------------------------------------------------------- exactly the repeated headers go

  /** Line i repeats a header of level two that stands before it, white space at the ends apart. */
  predicate Repeats(lines: seq<Text>, i: nat)
    requires i < |lines|
  {
    "## " <= Strip(lines[i]) && exists j :: 0 <= j < i && Strip(lines[j]) == Strip(lines[i])
  }

  lemma {:induction false} DropGrows(lines: seq<Text>, k: nat)
    requires k <= |lines|
    ensures DropRepeatedHeaders(lines[..k]) <= DropRepeatedHeaders(lines)
  {
    if k < |lines| {
      DropGrows(lines[..|lines| - 1], k);
      assert lines[..|lines| - 1][..k] == lines[..k];
    } else {
      assert lines[..k] == lines;
    }
  }

  lemma RepeatsIff(lines: seq<Text>, i: nat)
    requires i < |lines|
    ensures Repeats(lines, i) <==> IsHeader(lines[i]) && SeenHeader(lines[..i], Strip(lines[i]))
  {
    var before := lines[..i];
    if Repeats(lines, i) {
      var j :| 0 <= j < i && Strip(lines[j]) == Strip(lines[i]);
      assert before[j] == lines[j];
    }
    if SeenHeader(before, Strip(lines[i])) {
      var j :| 0 <= j < |before| && IsHeader(before[j]) && Strip(before[j]) == Strip(lines[i]);
      assert lines[j] == before[j];
    }
  }

  /** A line that repeats a header adds nothing; every other one is there, right after what the lines before it left. */
  lemma DropExactly(lines: seq<Text>, i: nat)
    requires i < |lines|
    ensures var before := DropRepeatedHeaders(lines[..i]);
      && before <= DropRepeatedHeaders(lines)
      && (if Repeats(lines, i) then DropRepeatedHeaders(lines[..i + 1]) == before
          else |before| < |DropRepeatedHeaders(lines)| && DropRepeatedHeaders(lines)[|before|] == lines[i])
  {
    DropGrows(lines, i);
    DropGrows(lines, i + 1);
    RepeatsIff(lines, i);
    assert lines[..i + 1][..i] == lines[..i];
  }

  /** In a merged timeline no header of level two stands twice. */
  lemma {:induction false} HeadersOnce(lines: seq<Text>, i: nat, j: nat)
    requires i < j < |DropRepeatedHeaders(lines)| && "## " <= Strip(DropRepeatedHeaders(lines)[j])
    ensures Strip(DropRepeatedHeaders(lines)[i]) != Strip(DropRepeatedHeaders(lines)[j])
  {
    var before, last := lines[..|lines| - 1], lines[|lines| - 1];
    var kept := DropRepeatedHeaders(before);
    if j < |kept| {
      HeadersOnce(before, i, j);
    } else {
      DropIsNotEmpty(before);
      RepeatsIff(lines, |lines| - 1);
      assert kept[i] in kept;
      var k :| 0 <= k < |before| && before[k] == kept[i];
      assert lines[k] == before[k];
    }
  }

  /** The lines of a part come in one piece, right after those of the parts before it. */
  lemma {:induction false} PartsInOrder(parts: seq<Text>, i: nat)
    requires i < |parts|
    ensures AllLines(parts[..i]) + Split(parts[i]) <= AllLines(parts)
  {
    if i < |parts| - 1 {
      PartsInOrder(parts[..|parts| - 1], i);
      assert parts[..|parts| - 1][..i] == parts[..i];
    }
  }
}
