/** Stripping, containment and lines of texts, as the consolidation uses them. */
module Texts {

  type Text = string

  predicate Space(ch: char) { ch == ' ' || ch == '\n' || ch == '\t' || ch == '\r' }

  function StripFront(t: Text): Text { if t != "" && Space(t[0]) then StripFront(t[1..]) else t }
  function StripBack(t: Text): Text { if t != "" && Space(t[|t| - 1]) then StripBack(t[..|t| - 1]) else t }
  function Strip(t: Text): Text { StripBack(StripFront(t)) }

  /** Something is left after stripping. */
  predicate Usable(t: Text) { Strip(t) != "" }

  /** Neither empty nor with white space at an end. */
  predicate Block(t: Text) { t != "" && !Space(t[0]) && !Space(t[|t| - 1]) }

  predicate OccursAt(part: Text, t: Text, i: int) { 0 <= i <= |t| - |part| && t[i..i + |part|] == part }
  predicate Occurs(part: Text, t: Text) { exists i :: 0 <= i <= |t| && OccursAt(part, t, i) }

  // ---------------------------------------------------------------- containment

  lemma OccursWithin(part: Text, before: Text, t: Text, after: Text)
    requires Occurs(part, t)
    ensures Occurs(part, before + t + after)
  {
    var i :| 0 <= i <= |t| && OccursAt(part, t, i);
    var long := before + t + after;
    var k := |before| + i;
    assert long[k..k + |part|] == t[i..i + |part|];
    assert OccursAt(part, long, k);
  }

  lemma OccursItself(t: Text)
    ensures Occurs(t, t)
  {
    assert OccursAt(t, t, 0);
  }

  lemma NothingInEmpty(part: Text)
    requires part != ""
    ensures !Occurs(part, "")
  {
  }

  // ---------------------------------------------------------------- stripping

  lemma {:induction false} FrontKeeps(part: Text, t: Text)
    requires Block(part) && Occurs(part, t)
    ensures Occurs(part, StripFront(t))
  {
    if t != "" && Space(t[0]) {
      var i :| 0 <= i <= |t| && OccursAt(part, t, i);
      assert t[i] == part[0];
      assert t[1..][i - 1..i - 1 + |part|] == t[i..i + |part|];
      assert OccursAt(part, t[1..], i - 1);
      FrontKeeps(part, t[1..]);
    }
  }

  lemma {:induction false} BackKeeps(part: Text, t: Text)
    requires Block(part) && Occurs(part, t)
    ensures Occurs(part, StripBack(t))
  {
    if t != "" && Space(t[|t| - 1]) {
      var i :| 0 <= i <= |t| && OccursAt(part, t, i);
      assert t[i + |part| - 1] == part[|part| - 1];
      assert t[..|t| - 1][i..i + |part|] == t[i..i + |part|];
      assert OccursAt(part, t[..|t| - 1], i);
      BackKeeps(part, t[..|t| - 1]);
    }
  }

  /** Stripping takes no block away. */
  lemma StripKeeps(part: Text, t: Text)
    requires Block(part) && Occurs(part, t)
    ensures Occurs(part, Strip(t))
  {
    FrontKeeps(part, t);
    BackKeeps(part, StripFront(t));
  }

  lemma {:induction false} FrontStripped(t: Text)
    ensures StripFront(t) == "" || !Space(StripFront(t)[0])
  {
    if t != "" && Space(t[0]) { FrontStripped(t[1..]); }
  }

  lemma {:induction false} BackStripped(t: Text)
    ensures StripBack(t) == "" || !Space(StripBack(t)[|StripBack(t)| - 1])
    ensures t != "" && !Space(t[0]) ==> StripBack(t) != "" && StripBack(t)[0] == t[0]
  {
    if t != "" && Space(t[|t| - 1]) {
      BackStripped(t[..|t| - 1]);
    }
  }

  /** What is left after stripping is a block or nothing. */
  lemma StripIsBlock(t: Text)
    ensures Strip(t) == "" || Block(Strip(t))
  {
    FrontStripped(t);
    BackStripped(StripFront(t));
  }

  // ---------------------------------------------------------------- lines

  /** Split at line breaks; there is always at least one line. */
  function Split(t: Text): (lines: seq<Text>)
    ensures lines != []
  {
    if t == "" then [""]
    else
      var rest := Split(t[1..]);
      if t[0] == '\n' then [""] + rest else [[t[0]] + rest[0]] + rest[1..]
  }

  function Join(lines: seq<Text>): Text {
    if lines == [] then "" else if |lines| == 1 then lines[0] else lines[0] + "\n" + Join(lines[1..])
  }

  predicate OneLine(t: Text) { '\n' !in t }

  lemma {:induction false} SplitLines(t: Text)
    ensures forall i :: 0 <= i < |Split(t)| ==> OneLine(Split(t)[i])
  {
    if t != "" { SplitLines(t[1..]); }
  }

  lemma {:induction false} SplitOne(line: Text)
    requires OneLine(line)
    ensures Split(line) == [line]
  {
    if line != "" {
      assert line[0] in line;
      assert forall ch :: ch in line[1..] ==> ch in line;
      SplitOne(line[1..]);
      assert [line[0]] + line[1..] == line;
    }
  }

  lemma {:induction false} SplitFirst(line: Text, t: Text)
    requires OneLine(line)
    ensures Split(line + "\n" + t) == [line] + Split(t)
  {
    var long := line + "\n" + t;
    if line == "" {
      assert long[0] == '\n' && long[1..] == t;
    } else {
      assert line[0] in line;
      assert forall ch :: ch in line[1..] ==> ch in line;
      SplitFirst(line[1..], t);
      assert long[0] == line[0] && long[1..] == line[1..] + "\n" + t;
      assert [line[0]] + line[1..] == line;
    }
  }

  /** Joining lines and splitting again gives them back. */
  lemma {:induction false} SplitJoin(lines: seq<Text>)
    requires lines != [] && forall i :: 0 <= i < |lines| ==> OneLine(lines[i])
    ensures Split(Join(lines)) == lines
  {
    if |lines| == 1 {
      SplitOne(lines[0]);
    } else {
      SplitJoin(lines[1..]);
      SplitFirst(lines[0], Join(lines[1..]));
    }
  }

  /** Splitting a text and joining its lines gives the text back. */
  lemma {:induction false} JoinSplit(t: Text)
    ensures Join(Split(t)) == t
  {
    if t != "" {
      JoinSplit(t[1..]);
      var rest := Split(t[1..]);
      assert t == [t[0]] + t[1..];
      if t[0] == '\n' {
        assert ([""] + rest)[1..] == rest;
      } else {
        var longer := [[t[0]] + rest[0]] + rest[1..];
        assert longer[1..] == rest[1..];
      }
    }
  }

  // ---------------------------------------------------------------- code fences

  const FENCE := "```"

  /** The position of the first line break, or the length of the text. */
  function LineEnd(t: Text): (n: nat)
    ensures n <= |t|
  {
    if t == "" || t[0] == '\n' then 0 else 1 + LineEnd(t[1..])
  }

  function WithoutClosing(body: Text): Text {
    if |body| >= 3 && body[|body| - 3..] == FENCE then StripBack(body[..|body| - 3]) else body
  }

  function Unfenced(s: Text): Text {
    if !(FENCE <= s) then s else if LineEnd(s) == |s| then "" else WithoutClosing(StripBack(s[LineEnd(s) + 1..]))
  }

  /** Without one outer code fence, whatever its language tag. */
  function StripCodeFence(t: Text): Text { Unfenced(Strip(t)) }

  lemma {:induction false} FirstLine(line: Text, t: Text)
    requires OneLine(line)
    ensures LineEnd(line + "\n" + t) == |line|
  {
    if line != "" {
      assert line[0] in line;
      assert forall ch :: ch in line[1..] ==> ch in line;
      FirstLine(line[1..], t);
      assert (line + "\n" + t)[1..] == line[1..] + "\n" + t;
    }
  }

  lemma BlockUnstripped(t: Text)
    requires Block(t)
    ensures Strip(t) == t && StripBack(t) == t
  {
  }

  /** Taking the fence off a fenced answer gives the answer back, up to white space at its end. */
  lemma FenceComesOff(tag: Text, answer: Text)
    requires OneLine(tag)
    ensures StripCodeFence((FENCE + tag) + "\n" + (answer + "\n" + FENCE)) == StripBack(answer)
  {
    FirstLine(FENCE + tag, answer + "\n" + FENCE);
    FenceLineComesOff(answer, answer + "\n" + FENCE);
    FramedComesOff(FENCE + tag, answer + "\n" + FENCE, (FENCE + tag) + "\n" + (answer + "\n" + FENCE));
  }

  lemma FramedComesOff(line: Text, body: Text, t: Text)
    requires t == line + "\n" + body && FENCE <= line && LineEnd(t) == |line| && StripBack(body) == body && Block(t)
    ensures StripCodeFence(t) == WithoutClosing(body)
  {
    BlockUnstripped(t);
    assert t[|line| + 1..] == body;
    assert FENCE <= t;
  }

  lemma FenceLineComesOff(answer: Text, body: Text)
    requires body == answer + "\n" + FENCE
    ensures StripBack(body) == body && body != "" && !Space(body[|body| - 1]) && WithoutClosing(body) == StripBack(answer)
  {
    assert body[|body| - 1] == '`';
    assert body[|body| - 3..] == FENCE && body[..|body| - 3] == answer + "\n";
    assert (answer + "\n")[..|answer|] == answer;
  }

  /** An answer without an outer fence only loses white space at its ends. */
  lemma UnfencedStays(answer: Text)
    requires Block(answer) && !(FENCE <= answer)
    ensures StripCodeFence(answer) == answer
  {
    BlockUnstripped(answer);
  }

  // ---------------------------------------------------------------- something but white space

  predicate Inked(t: Text) { exists i :: 0 <= i < |t| && !Space(t[i]) }

  lemma {:induction false} FrontInked(t: Text)
    ensures Inked(StripFront(t)) <==> Inked(t)
  {
    if t != "" && Space(t[0]) {
      FrontInked(t[1..]);
      InkedParts(t[..1], t[1..]);
      assert t == t[..1] + t[1..];
    }
  }

  lemma {:induction false} BackInked(t: Text)
    ensures Inked(StripBack(t)) <==> Inked(t)
  {
    if t != "" && Space(t[|t| - 1]) {
      BackInked(t[..|t| - 1]);
      InkedParts(t[..|t| - 1], t[|t| - 1..]);
      assert t == t[..|t| - 1] + t[|t| - 1..];
    }
  }

  lemma InkedParts(a: Text, b: Text)
    ensures Inked(a + b) <==> Inked(a) || Inked(b)
  {
    if Inked(a + b) {
      var i :| 0 <= i < |a + b| && !Space((a + b)[i]);
      assert (a + b)[i] == if i < |a| then a[i] else b[i - |a|];
    }
    if Inked(a) {
      var i :| 0 <= i < |a| && !Space(a[i]);
      assert (a + b)[i] == a[i];
    }
    if Inked(b) {
      var i :| 0 <= i < |b| && !Space(b[i]);
      assert (a + b)[|a| + i] == b[i];
    }
  }

  lemma UsableIsInked(t: Text)
    ensures Usable(t) <==> Inked(t)
  {
    FrontInked(t);
    BackInked(StripFront(t));
    StripIsBlock(t);
    if Strip(t) != "" { assert !Space(Strip(t)[0]); }
  }

  lemma {:induction false} InkedLine(t: Text) returns (line: Text)
    requires Inked(t)
    ensures line in Split(t) && Inked(line)
  {
    var rest := Split(t[1..]);
    InkedParts(t[..1], t[1..]);
    assert t == t[..1] + t[1..];
    if t[0] == '\n' {
      line := InkedLine(t[1..]);
    } else if Space(t[0]) || Inked(t[1..]) {
      line := InkedLine(t[1..]);
      if line == rest[0] {
        InkedParts([t[0]], line);
        line := [t[0]] + line;
        assert Split(t)[0] == line;
      } else {
        var i :| 0 <= i < |rest| && rest[i] == line;
        assert Split(t)[i] == line;
      }
    } else {
      line := [t[0]] + rest[0];
      assert line[0] == t[0];
      assert Split(t)[0] == line;
    }
  }

  lemma {:induction false} InkedText(t: Text, line: Text)
    requires line in Split(t) && Inked(line)
    ensures Inked(t)
  {
    if t != "" {
      var rest := Split(t[1..]);
      assert t == [t[0]] + t[1..];
      InkedParts([t[0]], t[1..]);
      if t[0] == '\n' {
        InkedText(t[1..], line);
      } else if line == [t[0]] + rest[0] {
        InkedParts([t[0]], rest[0]);
        if Inked(rest[0]) { InkedText(t[1..], rest[0]); }
      } else {
        InkedText(t[1..], line);
      }
    }
  }
}
