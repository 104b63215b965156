/**
 What a streaming cycle does, told from the executor's attempts alone: what was spent, what was
 delivered, what the summary says, and how each attempt sends the loop on.
 */
module StreamHistory {
  import opened Options
  import opened StreamCycle

  // ---------------------------------------------------------------- what an attempt reports

  datatype Counter = InputTokens | OutputTokens | CacheReadTokens | CacheWriteTokens

  function Of(u: Usage, key: Counter): int {
    match key
    case InputTokens => u.inputTokens
    case OutputTokens => u.outputTokens
    case CacheReadTokens => u.cacheReadTokens
    case CacheWriteTokens => u.cacheWriteTokens
  }

  /** One counter of what comes with a result or an error; it counts unless usage chunks brought it before. */
  function NewTokens(o: Observed, key: Counter): int { if o.alreadyEmitted then 0 else Of(o.usage, key) }

  function ChunkTokens(c: Chunk, key: Counter): int {
    match c
    case UsageReport(u) => Of(u, key)
    case Done(_, o) => NewTokens(o, key)
    case Terminal(_, _, o) => NewTokens(o, key)
    case _ => 0
  }

  function TokensIn(chunks: seq<Chunk>, key: Counter): int {
    if chunks == [] then 0 else TokensIn(chunks[..|chunks| - 1], key) + ChunkTokens(chunks[|chunks| - 1], key)
  }

  /** All that an attempt reports under one counter, its exception included. */
  function Tokens(a: Attempt, key: Counter): int {
    TokensIn(a.chunks, key) + if a.ending.Ended? then 0 else NewTokens(a.observed, key)
  }

  function ChunkRecords(c: Chunk): nat { if c.Done? || c.Terminal? then c.observed.records else 0 }

  function RecordsIn(chunks: seq<Chunk>): nat {
    if chunks == [] then 0 else RecordsIn(chunks[..|chunks| - 1]) + ChunkRecords(chunks[|chunks| - 1])
  }

  /** Tool calls an attempt puts on record; a cancelled one hands over none with its exception. */
  function ToolRecords(a: Attempt): nat {
    RecordsIn(a.chunks) + if a.ending.Raised? || a.ending.Disconnect? then a.observed.records else 0
  }

  /** A tool chunk or text that is not empty. */
  predicate Telling(c: Chunk) { match c case Text(text) => text != "" case ToolStart => true case ToolEnd => true case _ => false }
  predicate Tells(chunks: seq<Chunk>) { exists i :: 0 <= i < |chunks| && Telling(chunks[i]) }

  function PassedOf(c: Chunk): seq<Chunk> { if c.UsageReport? || c.Done? || c.Terminal? then [] else [c] }
  function ResultOf(c: Chunk): seq<string> { if c.Done? then [c.fullText] else [] }

  /** The chunks that reach the consumer: all but usage reports, results and terminal errors. */
  function Passed(chunks: seq<Chunk>): seq<Chunk> {
    if chunks == [] then []
    else Passed(chunks[..|chunks| - 1]) + PassedOf(chunks[|chunks| - 1])
  }

  function Results(chunks: seq<Chunk>): seq<string> {
    if chunks == [] then []
    else Results(chunks[..|chunks| - 1]) + ResultOf(chunks[|chunks| - 1])
  }

  /** The reason of the last terminal error, or the one from before. */
  function LastReason(chunks: seq<Chunk>, before: string): string {
    if chunks == [] then before
    else if chunks[|chunks| - 1].Terminal? then chunks[|chunks| - 1].reason
    else LastReason(chunks[..|chunks| - 1], before)
  }

  /** The chunks among the events, with the configuration they are attributed to. */
  function Delivered(es: seq<Event>): seq<(Config, Chunk)> {
    if es == [] then []
    else Delivered(es[..|es| - 1]) + if es[|es| - 1].Forward? then [(es[|es| - 1].config, es[|es| - 1].chunk)] else []
  }

  function From(c: Config, chunks: seq<Chunk>): seq<(Config, Chunk)> { seq(|chunks|, i requires 0 <= i < |chunks| => (c, chunks[i])) }
  function PartsFrom(c: Config, words: seq<string>): seq<Part> { seq(|words|, i requires 0 <= i < |words| => Part(c, words[i])) }

  lemma DeliveredOne(es: seq<Event>, e: Event)
    ensures Delivered(es + [e]) == Delivered(es) + if e.Forward? then [(e.config, e.chunk)] else []
  {
    assert (es + [e])[..|es|] == es;
  }

  // ---------------------------------------------------------------- streaming one attempt

  /** From t to u: these tokens and records, and this work. */
  predicate Counted(t: Tally, u: Tally, key: Counter, tokens: int, records: nat, work: bool) {
    && Of(u.loop.total, key) == Of(t.loop.total, key) + tokens && Of(u.used, key) == Of(t.used, key) + tokens
    && u.loop.records == t.loop.records + records && (u.loop.startedWork <==> t.loop.startedWork || work)
    && SameRound(t.loop, u.loop)
  }

  lemma OfMerge(u: Usage, v: Usage, key: Counter)
    ensures Of(Merge(u, v), key) == Of(u, key) + Of(v, key) && Of(ZERO, key) == 0
  {
  }

  lemma ChargeCounts(t: Tally, o: Observed, records: nat, key: Counter, u: Tally)
    requires u == Charge(t, ObservedUsage(o), records)
    ensures Counted(t, u, key, NewTokens(o, key), records, false)
  {
    OfMerge(t.loop.total, ObservedUsage(o), key);
    OfMerge(t.used, ObservedUsage(o), key);
  }

  lemma TakeCounts(t: Tally, c: Chunk, key: Counter, u: Tally)
    requires u == Take(t, c)
    ensures Counted(t, u, key, ChunkTokens(c, key), ChunkRecords(c), Telling(c))
  {
    match c
    case UsageReport(usage) => OfMerge(t.loop.total, usage, key); OfMerge(t.used, usage, key);
    case Done(_, o) => ChargeCounts(t, o, o.records, key, Charge(t, ObservedUsage(o), o.records));
    case Terminal(_, _, o) => ChargeCounts(t, o, o.records, key, Charge(t, ObservedUsage(o), o.records));
    case _ =>
  }

  lemma {:induction false} TakeAllCounts(t: Tally, chunks: seq<Chunk>, key: Counter, u: Tally)
    requires u == TakeAll(t, chunks)
    ensures Counted(t, u, key, TokensIn(chunks, key), RecordsIn(chunks), Tells(chunks))
    decreases |chunks|
  {
    if chunks != [] {
      var shorter, c := chunks[..|chunks| - 1], chunks[|chunks| - 1];
      TakeAllCounts(t, shorter, key, TakeAll(t, shorter));
      TakeCounts(TakeAll(t, shorter), c, key, u);
      TellsOne(chunks, shorter, c);
    }
  }

  lemma TellsOne(chunks: seq<Chunk>, shorter: seq<Chunk>, c: Chunk)
    requires chunks == shorter + [c]
    ensures Tells(chunks) <==> Tells(shorter) || Telling(c)
  {
    assert chunks[|shorter|] == c && forall i :: 0 <= i < |shorter| ==> chunks[i] == shorter[i];
  }

  /** From l to m: these chunks went out and these words into the summary, all under the model in use. */
  predicate Shown(l: Loop, m: Loop, chunks: seq<Chunk>, words: seq<string>) {
    && Delivered(m.events) == Delivered(l.events) + From(l.config, chunks) && |m.events| == |l.events| + |chunks|
    && m.text == l.text + PartsFrom(l.config, words) && m.config == l.config
  }

  lemma TakeShows(t: Tally, c: Chunk, u: Tally)
    requires u == Take(t, c)
    ensures Shown(t.loop, u.loop, PassedOf(c), ResultOf(c))
  {
    var l, m := t.loop, u.loop;
    if c.Done? {
      assert m.events == l.events && m.text == l.text + [Part(l.config, c.fullText)];
    } else if c.UsageReport? || c.Terminal? {
      assert m.events == l.events && m.text == l.text;
    } else {
      assert m.events == l.events + [Forward(l.config, c)] && m.text == l.text;
      DeliveredOne(l.events, Forward(l.config, c));
    }
    ShownOne(l, m, c);
  }

  lemma ShownOne(l: Loop, m: Loop, c: Chunk)
    requires m.config == l.config && m.text == l.text + (if c.Done? then [Part(l.config, c.fullText)] else [])
    requires |m.events| == |l.events| + |PassedOf(c)|
    requires Delivered(m.events) == Delivered(l.events) + if PassedOf(c) == [] then [] else [(l.config, c)]
    ensures Shown(l, m, PassedOf(c), ResultOf(c))
  {
  }

  lemma {:induction false} TakeAllShows(t: Tally, chunks: seq<Chunk>, u: Tally)
    requires u == TakeAll(t, chunks)
    ensures Shown(t.loop, u.loop, Passed(chunks), Results(chunks))
    decreases |chunks|
  {
    if chunks != [] {
      var shorter, c := chunks[..|chunks| - 1], chunks[|chunks| - 1];
      var m := TakeAll(t, shorter);
      TakeAllShows(t, shorter, m);
      TakeShows(m, c, u);
      ShownTwice(t.loop, m.loop, u.loop, Passed(shorter), PassedOf(c), Results(shorter), ResultOf(c));
    }
  }

  lemma ShownTwice(l: Loop, m: Loop, n: Loop, a: seq<Chunk>, b: seq<Chunk>, x: seq<string>, y: seq<string>)
    requires Shown(l, m, a, x) && Shown(m, n, b, y)
    ensures Shown(l, n, a + b, x + y)
  {
    assert From(l.config, a) + From(l.config, b) == From(l.config, a + b);
    assert PartsFrom(l.config, x) + PartsFrom(l.config, y) == PartsFrom(l.config, x + y);
  }

  lemma TakeErrors(t: Tally, c: Chunk, u: Tally)
    requires u == Take(t, c)
    ensures u.loop.error == (if c.Terminal? then AsProblem(c.message) else t.loop.error)
    ensures u.loop.reason == (if c.Terminal? then c.reason else t.loop.reason)
    ensures u.loop.held == (if c.Terminal? then Some(Reported(c.message)) else t.loop.held) && (u.succeeded <==> t.succeeded || c.Done?)
  {
  }

  /** The error, its reason and the chunk held back are those of the last terminal error, if there is one. */
  lemma {:induction false} TakeAllErrors(t: Tally, chunks: seq<Chunk>, u: Tally)
    requires u == TakeAll(t, chunks)
    ensures u.loop.error == if HasTerminal(chunks) then AsProblem(LastMessage(chunks)) else t.loop.error
    ensures u.loop.reason == LastReason(chunks, t.loop.reason)
    ensures u.loop.held == if HasTerminal(chunks) then Some(Reported(LastMessage(chunks))) else t.loop.held
    ensures u.succeeded <==> t.succeeded || HasResult(chunks)
    decreases |chunks|
  {
    if chunks != [] {
      var shorter, c := chunks[..|chunks| - 1], chunks[|chunks| - 1];
      var m := TakeAll(t, shorter);
      TakeAllErrors(t, shorter, m);
      TakeErrors(m, c, u);
      LastChunk(chunks, shorter, c);
    }
  }

  // ---------------------------------------------------------------- one pass

  /** Streaming and the flush leave these alone. */
  predicate Midway(l: Loop, a: Attempt, k: Loop) {
    && k.retries == l.retries && k.swapped == l.swapped && k.status == l.status
    && Shown(l, k, Passed(a.chunks), Results(a.chunks))
    && k.error == (if HasTerminal(a.chunks) then AsProblem(LastMessage(a.chunks)) else l.error)
    && k.reason == LastReason(a.chunks, l.reason)
    && k.held == if HasTerminal(a.chunks) then Some(Reported(LastMessage(a.chunks))) else l.held
  }

  lemma AccountShows(l: Loop, t: Tally, a: Attempt, k: Loop)
    requires t == Streamed(l, a) && k == Account(t, a)
    ensures Midway(l, a, k) && (t.succeeded <==> HasResult(a.chunks))
  {
    TakeAllShows(Started(l), a.chunks, t);
    TakeAllErrors(Started(l), a.chunks, t);
    TakeAllCounts(Started(l), a.chunks, InputTokens, t);
  }

  /** What a pass spends: one flush of exactly the attempt's tokens, under the model it ran on, and the same on the total. */
  predicate Spends(l: Loop, a: Attempt, key: Counter, m: Loop) {
    && |m.flushed| == |l.flushed| + 1 && m.flushed[..|l.flushed|] == l.flushed
    && m.flushed[|l.flushed|].config == l.config && Of(m.flushed[|l.flushed|].usage, key) == Tokens(a, key)
    && Of(m.total, key) == Of(l.total, key) + Tokens(a, key) && m.records == l.records + ToolRecords(a)
    && (m.startedWork <==> l.startedWork || Tells(a.chunks))
  }

  /** The attempt's own usage and the total have moved alike since the loop l. */
  predicate Charged(l: Loop, u: Tally, a: Attempt, key: Counter) {
    && u.loop.flushed == l.flushed && u.loop.config == l.config && Of(u.used, key) == Tokens(a, key)
    && Of(u.loop.total, key) == Of(l.total, key) + Tokens(a, key) && u.loop.records == l.records + ToolRecords(a)
    && (u.loop.startedWork <==> l.startedWork || Tells(a.chunks))
  }

  lemma FlushSpends(l: Loop, u: Tally, a: Attempt, key: Counter, k: Loop)
    requires Charged(l, u, a, key) && k == u.loop.(flushed := u.loop.flushed + [Flush(u.loop.config, u.used)])
    ensures Spends(l, a, key, k)
  {
  }

  lemma StreamCharges(s: Tally, t: Tally, a: Attempt, key: Counter)
    requires t == TakeAll(s, a.chunks) && Of(s.used, key) == 0
    ensures Counted(s, t, key, TokensIn(a.chunks, key), RecordsIn(a.chunks), Tells(a.chunks)) && Of(t.used, key) == TokensIn(a.chunks, key)
  {
    TakeAllCounts(s, a.chunks, key, t);
  }

  lemma AccountSpends(l: Loop, t: Tally, a: Attempt, key: Counter, k: Loop)
    requires t == Streamed(l, a) && k == Account(t, a)
    ensures Spends(l, a, key, k)
  {
    OfMerge(ZERO, ZERO, key);
    StreamCharges(Started(l), t, a, key);
    AccountFlushes(l, Started(l), t, a, key, k);
  }

  lemma AccountFlushes(l: Loop, s: Tally, t: Tally, a: Attempt, key: Counter, k: Loop)
    requires s.loop == l && Counted(s, t, key, TokensIn(a.chunks, key), RecordsIn(a.chunks), Tells(a.chunks))
    requires Of(t.used, key) == TokensIn(a.chunks, key) && k == Account(t, a)
    ensures Spends(l, a, key, k)
  {
    if a.ending.Ended? {
      FlushSpends(l, t, a, key, k);
    } else {
      var records := if a.ending.Cancelled? then 0 else a.observed.records;
      var u := Charge(t, ObservedUsage(a.observed), records);
      ChargeCounts(t, a.observed, records, key, u);
      FlushSpends(l, u, a, key, k);
    }
  }

  lemma SettleSpendsNothing(p: Params, l: Loop, a: Attempt, succeeded: bool)
    ensures var k := Settle(p, l, a, succeeded);
      k.flushed == l.flushed && k.total == l.total && k.records == l.records && k.startedWork == l.startedWork
  {
  }

  lemma ConcludeSpendsNothing(p: Params, l: Loop, a: Attempt, succeeded: bool)
    ensures var k := Conclude(p, l, a, succeeded);
      k.flushed == l.flushed && k.total == l.total && k.records == l.records && k.startedWork == l.startedWork
  {
    match a.ending
    case Cancelled =>
    case Ended => SettleSpendsNothing(p, l, a, succeeded);
    case Raised(e) => SettleSpendsNothing(p, Broken(l, e), a, succeeded);
    case Disconnect(_, _, _, _, cause, e) => SettleSpendsNothing(p, Broken(l, e).(reason := cause), a, succeeded);
  }

  lemma PassSpendsExactly(p: Params, l: Loop, a: Attempt, key: Counter, m: Loop)
    requires m == Pass(p, l, a)
    ensures Spends(l, a, key, m)
  {
    var t := Streamed(l, a);
    AccountSpends(l, t, a, key, Account(t, a));
    ConcludeSpendsNothing(p, Account(t, a), a, t.succeeded);
  }

  /** A stream that is lost: not classified as final, nor as a failure another model may take over. */
  predicate LostStream(p: Params, a: Attempt, untouched: bool) {
    a.ending.Disconnect? && !(a.ending.classified && (a.ending.terminalHint || (a.ending.fallbackOk && p.hasFallback && untouched)))
  }

  /** Nothing shown and no tool call on record, this attempt included. */
  predicate Untouched(l: Loop, a: Attempt) {
    !l.startedWork && !Tells(a.chunks) && l.records == 0 && ToolRecords(a) == 0
  }

  /** The error an attempt leaves when it is not lost: its exception, or its last terminal message, or the error from before. */
  function Failure(a: Attempt, before: Problem): Problem {
    match a.ending
    case Raised(e) => SdkError(e)
    case Disconnect(_, _, _, _, _, e) => SdkError(e)
    case _ => if HasTerminal(a.chunks) then AsProblem(LastMessage(a.chunks)) else before
  }

  function FailureReason(a: Attempt, before: string): string {
    if a.ending.Disconnect? then a.ending.cause else LastReason(a.chunks, before)
  }

  /** The failure is handed to the model that the resolver names. */
  predicate HandsOver(p: Params, l: Loop, a: Attempt) {
    && Failure(a, l.error) != NoProblem && Untouched(l, a) && !l.swapped && p.hasFallback && a.hintOk && a.resolved != l.config
  }

  predicate EndsWith(m: Loop, l: Loop, a: Attempt, e: Event) {
    |m.events| == |l.events| + |Passed(a.chunks)| + 1 && m.events[|m.events| - 1] == e
  }

  /** A stream that is lost is retried while the budget lasts and then given up; its text is kept. */
  predicate RetriedOrGivenUp(p: Params, l: Loop, a: Attempt, m: Loop)
    requires a.ending.Disconnect?
  {
    && m.config == l.config && m.swapped == l.swapped && m.reason == LastReason(a.chunks, l.reason)
    && m.text == l.text + PartsFrom(l.config, Results(a.chunks) + if a.ending.partialText == "" then [] else [a.ending.partialText])
    && if l.retries < p.maxRetries then
         m.error == (if HasTerminal(a.chunks) then AsProblem(LastMessage(a.chunks)) else l.error)
         && m.retries == l.retries + 1 && EndsWith(m, l, a, RetryStart(l.retries + 1)) && m.status == if a.closed then Closed else Looping
       else
         m.retries == l.retries && m.error == RetriesExhausted && EndsWith(m, l, a, ErrorEvent(RetriesExhausted))
         && m.status == if a.closed then Closed else Over
  }

  /** A failure goes to the other model, and leaves no trace but the swap. */
  predicate HandedOver(l: Loop, a: Attempt, m: Loop) {
    && m.config == a.resolved && m.swapped && m.error == NoProblem && m.reason == "" && m.held.None? && m.retries == l.retries
    && EndsWith(m, l, a, SwapStart(a.resolved)) && m.status == if a.closed then Closed else Looping
  }

  /** The error chunk held back: of the exception, of the last terminal error, or from before. */
  function HeldBack(a: Attempt, before: Option<Problem>): Option<Problem> {
    match a.ending
    case Raised(e) => Some(SdkError(e))
    case Disconnect(_, _, _, _, _, e) => Some(SdkError(e))
    case _ => if HasTerminal(a.chunks) then Some(Reported(LastMessage(a.chunks))) else before
  }

  /** A failure or a result ends the loop, and only then is an error chunk let out; with neither, the loop goes round. */
  predicate LeftOrRoundAgain(l: Loop, a: Attempt, m: Loop) {
    && m.config == l.config && m.swapped == l.swapped && m.retries == l.retries
    && m.error == Failure(a, l.error) && m.reason == FailureReason(a, l.reason)
    && if Failure(a, l.error) == NoProblem && !HasResult(a.chunks) then
         m.status.Looping? && |m.events| == |l.events| + |Passed(a.chunks)|
       else if HeldBack(a, l.held).None? then
         m.status.Over? && |m.events| == |l.events| + |Passed(a.chunks)|
       else
         EndsWith(m, l, a, ErrorEvent(HeldBack(a, l.held).value)) && m.status == if a.closed then Closed else Over
  }

  lemma RetryDoes(p: Params, l: Loop, a: Attempt, k: Loop, m: Loop)
    requires l.status.Looping? && Midway(l, a, k) && a.ending.Disconnect? && m == Retry(p, k, a)
    ensures RetriedOrGivenUp(p, l, a, m)
  {
    KeepsText(l.config, l.text, Results(a.chunks), a.ending.partialText, k.text);
  }

  lemma KeepsText(c: Config, before: seq<Part>, words: seq<string>, lost: string, text: seq<Part>)
    requires text == before + PartsFrom(c, words)
    ensures text + [Part(c, lost)] == before + PartsFrom(c, words + [lost])
    ensures text == before + PartsFrom(c, words + [])
  {
    assert words + [] == words;
    assert PartsFrom(c, words) + [Part(c, lost)] == PartsFrom(c, words + [lost]);
  }

  /** The flushed loop with the error that the pass leaves. */
  predicate Failing(l: Loop, a: Attempt, k: Loop) {
    && k.retries == l.retries && k.swapped == l.swapped && k.status == l.status && Shown(l, k, Passed(a.chunks), Results(a.chunks))
    && k.error == Failure(a, l.error) && k.reason == FailureReason(a, l.reason) && k.held == HeldBack(a, l.held)
    && (k.startedWork <==> l.startedWork || Tells(a.chunks)) && k.records == l.records + ToolRecords(a)
  }

  lemma SettleDoes(p: Params, l: Loop, a: Attempt, k: Loop, succeeded: bool, m: Loop)
    requires l.status.Looping? && Failing(l, a, k) && (succeeded <==> HasResult(a.chunks)) && m == Settle(p, k, a, succeeded)
    ensures if HandsOver(p, l, a) then HandedOver(l, a, m) else LeftOrRoundAgain(l, a, m)
    ensures m.text == l.text + PartsFrom(l.config, Results(a.chunks))
  {
  }

  /** How the loop goes on after an attempt that is neither cancelled nor lost. */
  predicate GoesOn(p: Params, l: Loop, a: Attempt, m: Loop) {
    && (if HandsOver(p, l, a) then HandedOver(l, a, m) else LeftOrRoundAgain(l, a, m))
    && m.text == l.text + PartsFrom(l.config, Results(a.chunks))
  }

  lemma DisconnectGoesOn(p: Params, l: Loop, a: Attempt, k: Loop, succeeded: bool, m: Loop)
    requires l.status.Looping? && a.ending.Disconnect? && Midway(l, a, k) && (succeeded <==> HasResult(a.chunks)) && m == Conclude(p, k, a, succeeded)
    requires (k.startedWork <==> l.startedWork || Tells(a.chunks)) && k.records == l.records + ToolRecords(a)
    ensures if LostStream(p, a, Untouched(l, a)) then RetriedOrGivenUp(p, l, a, m) else GoesOn(p, l, a, m)
  {
    if LostStream(p, a, Untouched(l, a)) {
      RetryDoes(p, l, a, k, m);
    } else {
      SettleDoes(p, l, a, Broken(k, a.ending.error).(reason := a.ending.cause), succeeded, m);
    }
  }

  lemma ConcludeGoesOn(p: Params, l: Loop, a: Attempt, k: Loop, succeeded: bool, m: Loop)
    requires l.status.Looping? && !a.ending.Cancelled? && Midway(l, a, k) && (succeeded <==> HasResult(a.chunks))
    requires (k.startedWork <==> l.startedWork || Tells(a.chunks)) && k.records == l.records + ToolRecords(a)
    requires m == Conclude(p, k, a, succeeded)
    ensures if LostStream(p, a, Untouched(l, a)) then RetriedOrGivenUp(p, l, a, m) else GoesOn(p, l, a, m)
  {
    match a.ending
    case Ended => SettleDoes(p, l, a, k, succeeded, m);
    case Raised(e) => SettleDoes(p, l, a, Broken(k, e), succeeded, m);
    case Disconnect(_, _, _, _, _, _) => DisconnectGoesOn(p, l, a, k, succeeded, m);
  }

  /** How an attempt sends the loop on, told from the attempt and from what was there before it. */
  lemma PassGoesOn(p: Params, l: Loop, a: Attempt, m: Loop)
    requires l.status.Looping? && m == Pass(p, l, a)
    ensures a.ending.Cancelled? ==> m.status.Closed? && m.config == l.config && m.retries == l.retries && m.swapped == l.swapped
    ensures a.ending.Cancelled? ==> m.error == Failure(a, l.error)
    ensures LostStream(p, a, Untouched(l, a)) ==> RetriedOrGivenUp(p, l, a, m)
    ensures !a.ending.Cancelled? && !LostStream(p, a, Untouched(l, a)) ==> GoesOn(p, l, a, m)
  {
    var t := Streamed(l, a);
    var k := Account(t, a);
    AccountShows(l, t, a, k);
    AccountSpends(l, t, a, InputTokens, k);
    if !a.ending.Cancelled? { ConcludeGoesOn(p, l, a, k, t.succeeded, m); }
  }

  /** The chunks a pass shows are all those of the attempt that are meant for the consumer, in order. */
  lemma PassShows(p: Params, l: Loop, a: Attempt, m: Loop)
    requires m == Pass(p, l, a)
    ensures Delivered(m.events) == Delivered(l.events) + From(l.config, Passed(a.chunks))
  {
    var t := Streamed(l, a);
    AccountShows(l, t, a, Account(t, a));
    ConcludeShowsNothing(p, Account(t, a), a, t.succeeded);
  }

  lemma SettleShowsNothing(p: Params, l: Loop, a: Attempt, succeeded: bool)
    ensures Delivered(Settle(p, l, a, succeeded).events) == Delivered(l.events)
  {
    if Swaps(p, l, a) {
      DeliveredOne(l.events, SwapStart(a.resolved));
      assert Settle(p, l, a, succeeded).events == l.events + [SwapStart(a.resolved)];
    } else if l.held.Some? {
      DeliveredOne(l.events, ErrorEvent(l.held.value));
    }
  }

  lemma RetryShowsNothing(p: Params, l: Loop, a: Attempt)
    requires a.ending.Disconnect?
    ensures Delivered(Retry(p, l, a).events) == Delivered(l.events)
  {
    var e := if l.retries >= p.maxRetries then ErrorEvent(RetriesExhausted) else RetryStart(l.retries + 1);
    DeliveredOne(l.events, e);
    assert Retry(p, l, a).events == l.events + [e];
  }

  lemma ConcludeShowsNothing(p: Params, l: Loop, a: Attempt, succeeded: bool)
    ensures Delivered(Conclude(p, l, a, succeeded).events) == Delivered(l.events)
  {
    match a.ending
    case Cancelled =>
    case Ended => SettleShowsNothing(p, l, a, succeeded);
    case Raised(e) => SettleShowsNothing(p, Broken(l, e), a, succeeded);
    case Disconnect(_, _, _, _, cause, e) =>
      if CountsAsTerminal(p, l, a.ending) {
        SettleShowsNothing(p, Broken(l, e).(reason := cause), a, succeeded);
      } else {
        RetryShowsNothing(p, l, a);
      }
  }

  // ---------------------------------------------------------------- whole runs

  function AllTokens(done: seq<Attempt>, key: Counter): int {
    if done == [] then 0 else Tokens(done[0], key) + AllTokens(done[1..], key)
  }

  function AllRecords(done: seq<Attempt>): nat { if done == [] then 0 else ToolRecords(done[0]) + AllRecords(done[1..]) }

  predicate AnyTold(done: seq<Attempt>) { done != [] && (Tells(done[0].chunks) || AnyTold(done[1..])) }

  /** All chunks of these attempts that are meant for the consumer, each attempt under its own configuration. */
  function AllPassed(done: seq<Attempt>, flushed: seq<Flush>): seq<(Config, Chunk)>
    requires |flushed| == |done|
  {
    if done == [] then [] else From(flushed[0].config, Passed(done[0].chunks)) + AllPassed(done[1..], flushed[1..])
  }

  lemma {:induction false} RunTotals(p: Params, l: Loop, script: seq<Attempt>, key: Counter, n: nat, m: Loop)
    requires n == Executions(p, l, script) && m == RunFrom(p, l, script)
    ensures n <= |script| && Of(m.total, key) == Of(l.total, key) + AllTokens(script[..n], key)
    ensures m.records == l.records + AllRecords(script[..n]) && (m.startedWork <==> l.startedWork || AnyTold(script[..n]))
    decreases |script|
  {
    if script == [] || !l.status.Looping? {
      assert script[..0] == [];
    } else {
      var k, rest := Pass(p, l, script[0]), script[1..];
      PassSpendsExactly(p, l, script[0], key, k);
      RunsOn(p, l, script, k, rest);
      RunTotals(p, k, rest, key, n - 1, m);
      FirstOf(script, n);
    }
  }

  lemma FirstOf(script: seq<Attempt>, n: nat)
    requires 0 < n <= |script|
    ensures script[..n][0] == script[0] && script[..n][1..] == script[1..][..n - 1]
  {
  }

  /** The flushes since a loop are those of its executions, in order. */
  lemma {:induction false} RunFlushes(p: Params, l: Loop, script: seq<Attempt>, key: Counter, n: nat, m: Loop)
    requires n == Executions(p, l, script) && m == RunFrom(p, l, script)
    ensures n <= |script| && |m.flushed| == |l.flushed| + n && m.flushed[..|l.flushed|] == l.flushed
    ensures FlushedExactly(m.flushed[|l.flushed|..], script[..n], key)
    decreases |script|
  {
    if script == [] || !l.status.Looping? {
      assert script[..0] == [];
    } else {
      var k, rest := Pass(p, l, script[0]), script[1..];
      PassSpendsExactly(p, l, script[0], key, k);
      RunsOn(p, l, script, k, rest);
      RunFlushes(p, k, rest, key, n - 1, m);
      FirstOf(script, n);
      NextFlush(l.flushed, k.flushed, m.flushed);
    }
  }

  predicate FlushedExactly(flushed: seq<Flush>, done: seq<Attempt>, key: Counter) {
    if done == [] then flushed == []
    else flushed != [] && Of(flushed[0].usage, key) == Tokens(done[0], key) && FlushedExactly(flushed[1..], done[1..], key)
  }

  lemma NextFlush(f: seq<Flush>, g: seq<Flush>, h: seq<Flush>)
    requires |g| == |f| + 1 <= |h| && g[..|f|] == f && h[..|g|] == g
    ensures h[..|f|] == f && h[|f|..][0] == g[|f|] && h[|f|..][1..] == h[|g|..]
  {
    assert h[..|g|][..|f|] == h[..|f|];
    assert h[..|g|][|f|] == h[|f|];
  }

  lemma {:induction false} EachFlush(flushed: seq<Flush>, done: seq<Attempt>, key: Counter, i: nat)
    requires FlushedExactly(flushed, done, key) && i < |done|
    ensures |flushed| == |done| && Of(flushed[i].usage, key) == Tokens(done[i], key)
  {
    if i > 0 { EachFlush(flushed[1..], done[1..], key, i - 1); } else if |done| > 1 { EachFlush(flushed[1..], done[1..], key, 0); }
  }

  lemma {:induction false} PassedOn(done: seq<Attempt>, flushed: seq<Flush>, x: seq<(Config, Chunk)>, y: seq<(Config, Chunk)>, z: seq<(Config, Chunk)>)
    requires |done| == |flushed| > 0 && y == x + From(flushed[0].config, Passed(done[0].chunks))
    requires z == y + AllPassed(done[1..], flushed[1..])
    ensures z == x + AllPassed(done, flushed)
  {
  }

  lemma {:induction false} RunShows(p: Params, l: Loop, script: seq<Attempt>, n: nat, m: Loop)
    requires n == Executions(p, l, script) && m == RunFrom(p, l, script)
    ensures n <= |script| && |m.flushed| == |l.flushed| + n && m.flushed[..|l.flushed|] == l.flushed
    ensures Delivered(m.events) == Delivered(l.events) + AllPassed(script[..n], m.flushed[|l.flushed|..])
    decreases |script|
  {
    if script == [] || !l.status.Looping? {
      assert script[..0] == [];
    } else {
      var k, rest := Pass(p, l, script[0]), script[1..];
      PassSpendsExactly(p, l, script[0], InputTokens, k);
      PassShows(p, l, script[0], k);
      RunsOn(p, l, script, k, rest);
      RunShows(p, k, rest, n - 1, m);
      FirstOf(script, n);
      NextFlush(l.flushed, k.flushed, m.flushed);
      PassedOn(script[..n], m.flushed[|l.flushed|..], Delivered(l.events), Delivered(k.events), Delivered(m.events));
    }
  }

  /**
   Every run, closed, cancelled and looping ones included: each execution is flushed with exactly the tokens
   its attempt reported, nothing counted twice, and the total is their sum, under each of the four counters.
   */
  lemma UsageIsWhatWasReported(p: Params, script: seq<Attempt>, key: Counter)
    ensures var l := RunFrom(p, Initial(p), script); var n := Executions(p, Initial(p), script);
      && n <= |script| && |l.flushed| == n
      && (forall i :: 0 <= i < n ==> Of(l.flushed[i].usage, key) == Tokens(script[i], key))
      && Of(l.total, key) == AllTokens(script[..n], key)
      && (l.status.Over? ==> Of(Finish(l)[|l.events|].result.usage, key) == AllTokens(script[..n], key))
  {
    var l, n := RunFrom(p, Initial(p), script), Executions(p, Initial(p), script);
    RunFlushes(p, Initial(p), script, key, n, l);
    RunTotals(p, Initial(p), script, key, n, l);
    OfMerge(ZERO, ZERO, key);
    assert l.flushed[0..] == l.flushed;
    forall i | 0 <= i < n ensures Of(l.flushed[i].usage, key) == Tokens(script[i], key) { EachFlush(l.flushed, script[..n], key, i); }
  }

  /**
   The consumer receives exactly the chunks of the executed attempts that are meant for it, in order, each
   under the model of its attempt. The cycle reports that falling back is safe exactly if none of them
   is a tool chunk or text, and no tool call is on record.
   */
  lemma {:induction false} DeliversWhatWasStreamed(p: Params, script: seq<Attempt>)
    ensures var l := RunFrom(p, Initial(p), script); var n := Executions(p, Initial(p), script);
      && n <= |script| && |l.flushed| == n && Delivered(Finish(l)) == AllPassed(script[..n], l.flushed)
      && (l.status.Over? ==>
            (Finish(l)[|l.events|].result.fallbackSafe <==> !AnyTold(script[..n]) && AllRecords(script[..n]) == 0))
  {
    var l := RunFrom(p, Initial(p), script);
    var n := Executions(p, Initial(p), script);
    RunShows(p, Initial(p), script, n, l);
    RunTotals(p, Initial(p), script, InputTokens, n, l);
    assert l.flushed[0..] == l.flushed;
    if l.status.Over? { DeliveredOne(l.events, Finish(l)[|l.events|]); }
  }

  // ---------------------------------------------------------------- the retry budget

  function LostHere(p: Params, told: bool, records: nat, a: Attempt): nat {
    if LostStream(p, a, !told && !Tells(a.chunks) && records == 0 && ToolRecords(a) == 0) then 1 else 0
  }

  /** How many of these attempts are lost streams, given what was shown and recorded before them. */
  function LostStreams(p: Params, told: bool, records: nat, done: seq<Attempt>): nat
    decreases |done|
  {
    if done == [] then 0
    else LostHere(p, told, records, done[0]) + LostStreams(p, told || Tells(done[0].chunks), records + ToolRecords(done[0]), done[1..])
  }

  predicate BudgetUsed(p: Params, l: Loop, lost: nat) {
    && l.retries == (if lost <= p.maxRetries then lost else p.maxRetries)
    && (l.error == RetriesExhausted <==> lost > p.maxRetries)
    && (lost > p.maxRetries ==> lost == p.maxRetries + 1 && !l.status.Looping?)
  }

  lemma PassUsesBudget(p: Params, l: Loop, a: Attempt, lost: nat, m: Loop)
    requires l.status.Looping? && BudgetUsed(p, l, lost) && m == Pass(p, l, a)
    ensures BudgetUsed(p, m, lost + LostHere(p, l.startedWork, l.records, a))
  {
    PassGoesOn(p, l, a, m);
    LostKeepsError(p, l, a, m);
  }

  /** A retry keeps the error; only giving up makes it the exhausted one. */
  lemma LostKeepsError(p: Params, l: Loop, a: Attempt, m: Loop)
    requires l.status.Looping? && m == Pass(p, l, a) && l.error != RetriesExhausted
    ensures m.error == RetriesExhausted ==> LostStream(p, a, Untouched(l, a)) && l.retries >= p.maxRetries
  {
    PassGoesOn(p, l, a, m);
    var t := Streamed(l, a);
    AccountShows(l, t, a, Account(t, a));
    AccountSpends(l, t, a, InputTokens, Account(t, a));
  }

  lemma FirstPass(p: Params, l: Loop, script: seq<Attempt>, lost: nat) returns (k: Loop, rest: seq<Attempt>)
    requires script != [] && l.status.Looping? && BudgetUsed(p, l, lost)
    ensures rest == script[1..] && RunFrom(p, l, script) == RunFrom(p, k, rest) && Executions(p, l, script) == 1 + Executions(p, k, rest)
    ensures BudgetUsed(p, k, lost + LostHere(p, l.startedWork, l.records, script[0]))
    ensures (k.startedWork <==> l.startedWork || Tells(script[0].chunks)) && k.records == l.records + ToolRecords(script[0])
  {
    k, rest := Pass(p, l, script[0]), script[1..];
    PassSpendsExactly(p, l, script[0], InputTokens, k);
    PassUsesBudget(p, l, script[0], lost, k);
    RunsOn(p, l, script, k, rest);
  }

  lemma {:induction false} RunUsesBudget(p: Params, l: Loop, script: seq<Attempt>, told: bool, records: nat, lost: nat, n: nat)
    requires told == l.startedWork && records == l.records && BudgetUsed(p, l, lost) && n == Executions(p, l, script)
    ensures n <= |script| && BudgetUsed(p, RunFrom(p, l, script), lost + LostStreams(p, told, records, script[..n]))
    decreases |script|
  {
    if script == [] || !l.status.Looping? {
      assert script[..0] == [];
    } else {
      var k, rest := FirstPass(p, l, script, lost);
      var a := script[0];
      RunUsesBudget(p, k, rest, told || Tells(a.chunks), records + ToolRecords(a), lost + LostHere(p, told, records, a), n - 1);
      FirstOf(script, n);
      LostFirst(p, told, records, script[..n], a, rest[..n - 1]);
    }
  }

  lemma LostFirst(p: Params, told: bool, records: nat, done: seq<Attempt>, a: Attempt, rest: seq<Attempt>)
    requires done != [] && done[0] == a && done[1..] == rest
    ensures LostStreams(p, told, records, done)
         == LostHere(p, told, records, a) + LostStreams(p, told || Tells(a.chunks), records + ToolRecords(a), rest)
  {
  }

  /** The retries made are the streams lost, and the cycle gives up exactly at the first one beyond the budget. */
  lemma BudgetIsLostStreams(p: Params, script: seq<Attempt>)
    ensures var n := Executions(p, Initial(p), script);
      n <= |script| && BudgetUsed(p, RunFrom(p, Initial(p), script), LostStreams(p, false, 0, script[..n]))
  {
    RunUsesBudget(p, Initial(p), script, false, 0, 0, Executions(p, Initial(p), script));
  }

  // ---------------------------------------------------------------- the report

  /** What an attempt adds to the summary, under the model in use: its results, and the partial text of a lost stream. */
  function Said(p: Params, l: Loop, a: Attempt): seq<Part> {
    var lost := LostStream(p, a, Untouched(l, a)) && a.ending.partialText != "";
    PartsFrom(l.config, Results(a.chunks) + if lost then [a.ending.partialText] else [])
  }

  function Summary(p: Params, l: Loop, script: seq<Attempt>): seq<Part>
    decreases |script|
  {
    if script == [] || !l.status.Looping? then [] else Said(p, l, script[0]) + Summary(p, Pass(p, l, script[0]), script[1..])
  }

  lemma PassSays(p: Params, l: Loop, a: Attempt, m: Loop)
    requires l.status.Looping? && m == Pass(p, l, a)
    ensures m.text == l.text + Said(p, l, a)
  {
    PassGoesOn(p, l, a, m);
    assert Results(a.chunks) + [] == Results(a.chunks);
    if a.ending.Cancelled? {
      var t := Streamed(l, a);
      AccountShows(l, t, a, Account(t, a));
    }
  }

  lemma {:induction false} RunSays(p: Params, l: Loop, script: seq<Attempt>)
    ensures RunFrom(p, l, script).text == l.text + Summary(p, l, script)
    decreases |script|
  {
    if script != [] && l.status.Looping? {
      var k, first, rest := SayingPass(p, l, script);
      RunSays(p, k, rest);
      InThree(l.text, first, Summary(p, k, rest));
    }
  }

  lemma {:induction false} SayingPass(p: Params, l: Loop, script: seq<Attempt>) returns (k: Loop, first: seq<Part>, rest: seq<Attempt>)
    requires script != [] && l.status.Looping?
    ensures |rest| == |script| - 1 && RunFrom(p, l, script) == RunFrom(p, k, rest)
    ensures k.text == l.text + first && Summary(p, l, script) == first + Summary(p, k, rest)
  {
    k, first, rest := Pass(p, l, script[0]), Said(p, l, script[0]), script[1..];
    PassSays(p, l, script[0], k);
    RunsOn(p, l, script, k, rest);
  }

  lemma InThree(x: seq<Part>, y: seq<Part>, z: seq<Part>)
    ensures (x + y) + z == x + (y + z)
  {
  }

  /** A run is the run of all executions but the last, followed by the last. */
  lemma {:induction false} LastPass(p: Params, l: Loop, script: seq<Attempt>, n: nat)
    requires n == Executions(p, l, script) && n > 0
    ensures n <= |script| && RunFrom(p, l, script[..n - 1]).status.Looping?
    ensures RunFrom(p, l, script) == Pass(p, RunFrom(p, l, script[..n - 1]), script[n - 1])
    decreases |script|
  {
    var k, rest := Pass(p, l, script[0]), script[1..];
    RunsOn(p, l, script, k, rest);
    if n == 1 {
      assert script[..0] == [];
      NoneLeft(p, k, rest);
    } else {
      LastPass(p, k, rest, n - 1);
      assert script[..n - 1][0] == script[0] && script[..n - 1][1..] == rest[..n - 2];
      RunsOn(p, l, script[..n - 1], k, rest[..n - 2]);
    }
  }

  lemma NoneLeft(p: Params, l: Loop, script: seq<Attempt>)
    requires Executions(p, l, script) == 0
    ensures RunFrom(p, l, script) == l
  {
  }

  /**
   What a finished cycle reports: as its text, the results of all executions and the partial texts of lost
   streams, in order and each under its model; as error and reason, those that its last execution leaves, given
   what was there before it.
   */
  lemma ReportIs(p: Params, script: seq<Attempt>)
    requires RunFrom(p, Initial(p), script).status.Over?
    ensures var l, n := RunFrom(p, Initial(p), script), Executions(p, Initial(p), script);
      var r := Finish(l)[|l.events|].result;
      && 0 < n <= |script| && r.text == Summary(p, Initial(p), script)
      && var k, a := RunFrom(p, Initial(p), script[..n - 1]), script[n - 1];
         if LostStream(p, a, Untouched(k, a)) then r.error == RetriesExhausted && r.reason == LastReason(a.chunks, k.reason)
         else r.error == Failure(a, k.error) && r.reason == FailureReason(a, k.reason)
  {
    var l, n := RunFrom(p, Initial(p), script), Executions(p, Initial(p), script);
    RunSays(p, Initial(p), script);
    if n == 0 { NoneLeft(p, Initial(p), script); }
    LastPass(p, Initial(p), script, n);
    LeavesBehind(p, RunFrom(p, Initial(p), script[..n - 1]), script[n - 1], l);
  }

  lemma LeavesBehind(p: Params, k: Loop, a: Attempt, l: Loop)
    requires k.status.Looping? && l == Pass(p, k, a) && l.status.Over?
    ensures if LostStream(p, a, Untouched(k, a)) then l.error == RetriesExhausted && l.reason == LastReason(a.chunks, k.reason)
            else l.error == Failure(a, k.error) && l.reason == FailureReason(a, k.reason)
  {
    PassGoesOn(p, k, a, l);
  }
}
