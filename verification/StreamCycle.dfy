/**
 The streaming cycle of an agent: run the executor, retry on a lost stream, swap the model once
 after a terminal failure, and account for every token on the way.

 The executor is a script: what each attempt streams and how it ends. Nothing restricts how one
 attempt follows from the others, nor in which order an attempt yields results and errors, unless a
 statement asks for the executor's contract.
 */
module StreamCycle {
  import opened Options

  /** The fields that decide where a call is routed. */
  datatype Config = Config(model: string, executionMode: string, resolvedMode: string, credential: string)

  // ---------------------------------------------------------------- token usage

  /** The four counters of a usage record; a key the provider leaves out counts as zero. */
  datatype Usage = Usage(inputTokens: int, outputTokens: int, cacheReadTokens: int, cacheWriteTokens: int)

  const ZERO := Usage(0, 0, 0, 0)

  function Merge(acc: Usage, chunk: Usage): Usage {
    Usage(acc.inputTokens + chunk.inputTokens, acc.outputTokens + chunk.outputTokens,
          acc.cacheReadTokens + chunk.cacheReadTokens, acc.cacheWriteTokens + chunk.cacheWriteTokens)
  }

  // ---------------------------------------------------------------- the executor's script

  /** Usage and tool records that come with a result, a terminal error or an exception. */
  datatype Observed = Observed(usage: Usage, alreadyEmitted: bool, records: nat)

  datatype Chunk =
    | Text(text: string)
    | Thinking(text: string)
    | ToolStart
    | ToolEnd
    | UsageReport(usage: Usage)
    | Done(fullText: string, observed: Observed)
    | Terminal(message: string, reason: string, observed: Observed)
    | Complaint                    // an error chunk that is not terminal, forwarded
    | Notice                       // any other chunk, forwarded

  /** Tool chunks and non-empty text: once one is out, the attempt has produced work. */
  predicate IsWork(c: Chunk) { c.ToolStart? || c.ToolEnd? || (c.Text? && c.text != "") }

  predicate HasWork(chunks: seq<Chunk>) { exists i :: 0 <= i < |chunks| && IsWork(chunks[i]) }

  datatype Ending =
    | Ended                        // the stream is exhausted
    | Disconnect(partialText: string, classified: bool, terminalHint: bool, fallbackOk: bool, cause: string, error: string)
    | Raised(error: string)
    | Cancelled

  /**
   One execution. `closed` says the consumer closes the generator, or cancellation strikes, at
   the first suspension after the attempt; `hintOk` and `resolved` are the error classifier's and
   the model resolver's answers if they are asked after it; `observed` comes with an exception.
   */
  datatype Attempt = Attempt(
    chunks: seq<Chunk>, ending: Ending, observed: Observed, closed: bool, hintOk: bool, resolved: Config)

  predicate HasResult(chunks: seq<Chunk>) { exists i :: 0 <= i < |chunks| && chunks[i].Done? }
  predicate HasTerminal(chunks: seq<Chunk>) { exists i :: 0 <= i < |chunks| && chunks[i].Terminal? }

  /** The message of the last terminal error, "" if there is none. */
  function LastMessage(chunks: seq<Chunk>): string {
    if chunks == [] then ""
    else if chunks[|chunks| - 1].Terminal? then chunks[|chunks| - 1].message
    else LastMessage(chunks[..|chunks| - 1])
  }

  /** The attempt ends without an exception, a result or a message. */
  predicate Idle(a: Attempt) { a.ending.Ended? && !HasResult(a.chunks) && LastMessage(a.chunks) == "" }

  /** A result or a terminal error is the last thing an attempt yields, and then no exception follows. */
  predicate OneEnding(a: Attempt) {
    forall i :: 0 <= i < |a.chunks| && (a.chunks[i].Done? || a.chunks[i].Terminal?) ==> i == |a.chunks| - 1 && a.ending.Ended?
  }

  predicate AllOneEnding(script: seq<Attempt>) { forall i :: 0 <= i < |script| ==> OneEnding(script[i]) }

  /** The executor's contract: one ending, and not an idle one. */
  predicate Contract(a: Attempt) { OneEnding(a) && !Idle(a) }

  predicate EndsInResult(a: Attempt) { a.ending.Ended? && a.chunks != [] && a.chunks[|a.chunks| - 1].Done? }

  // ---------------------------------------------------------------- the loop's variables

  datatype Params = Params(maxRetries: nat, start: Config, hasFallback: bool)

  datatype Part = Part(config: Config, text: string)
  datatype Flush = Flush(config: Config, usage: Usage)
  datatype Action = Responded | Failed

  /** The terminal error message; an empty message is the same as none. */
  datatype Problem = NoProblem | Reported(message: string) | SdkError(error: string) | RetriesExhausted

  datatype Result = Result(action: Action, text: seq<Part>, error: Problem, reason: string, usage: Usage, fallbackSafe: bool)

  datatype Event =
    | Forward(config: Config, chunk: Chunk)
    | RetryStart(retry: nat)
    | SwapStart(config: Config)
    | ErrorEvent(problem: Problem)
    | CycleDone(result: Result)

  datatype Status = Looping | Over | Closed

  datatype Loop = Loop(
    config: Config,
    retries: nat,
    swapped: bool,
    startedWork: bool,
    records: nat,
    total: Usage,
    text: seq<Part>,
    error: Problem,
    reason: string,
    held: Option<Problem>,         // the error chunk, held back until a swap is ruled out
    events: seq<Event>,
    flushed: seq<Flush>,           // one entry per execution, written by the finally block
    status: Status)

  function Initial(p: Params): Loop {
    Loop(p.start, 0, false, false, 0, ZERO, [], NoProblem, "", None, [], [], Looping)
  }

  function AsProblem(message: string): Problem { if message == "" then NoProblem else Reported(message) }

  // ---------------------------------------------------------------- one pass, as a function

  /** The loop while it streams an attempt: the attempt's own usage, and whether it gave a result. */
  datatype Tally = Tally(loop: Loop, used: Usage, succeeded: bool)

  function ObservedUsage(o: Observed): Usage { if o.alreadyEmitted then ZERO else o.usage }

  /** Usage goes to both totals. */
  function Charge(t: Tally, u: Usage, records: nat): Tally {
    t.(loop := t.loop.(total := Merge(t.loop.total, u), records := t.loop.records + records), used := Merge(t.used, u))
  }

  /** One chunk: note work, account usage, keep results and errors, forward the rest. */
  function Take(t: Tally, c: Chunk): Tally {
    match c
    case UsageReport(u) => Charge(t, u, 0)
    case Done(text, o) =>
      var u := Charge(t, ObservedUsage(o), o.records);
      u.(loop := u.loop.(text := u.loop.text + [Part(u.loop.config, text)]), succeeded := true)
    case Terminal(m, r, o) =>
      var u := Charge(t, ObservedUsage(o), o.records);
      u.(loop := u.loop.(error := AsProblem(m), reason := r, held := Some(Reported(m))))
    case _ =>
      t.(loop := t.loop.(startedWork := t.loop.startedWork || IsWork(c), events := t.loop.events + [Forward(t.loop.config, c)]))
  }

  function TakeAll(t: Tally, chunks: seq<Chunk>): Tally {
    if chunks == [] then t else Take(TakeAll(t, chunks[..|chunks| - 1]), chunks[|chunks| - 1])
  }

  /** The attempt is over: account what an exception reported and flush its usage under its model. */
  function Account(t: Tally, a: Attempt): Loop {
    if a.ending.Ended? then t.loop.(flushed := t.loop.flushed + [Flush(t.loop.config, t.used)])
    else
      var u := Charge(t, ObservedUsage(a.observed), if a.ending.Cancelled? then 0 else a.observed.records);
      u.loop.(flushed := u.loop.flushed + [Flush(u.loop.config, u.used)])
  }

  function AfterSuspension(l: Loop, a: Attempt): Loop {
    if a.closed then l.(status := Closed) else l
  }

  /** The swap target, if the failure may be retried on another model. */
  function RuntimeFallback(p: Params, l: Loop, a: Attempt): Option<Config> {
    if l.startedWork || l.records > 0 || !p.hasFallback || !a.hintOk || a.resolved == l.config then None
    else Some(a.resolved)
  }

  function Swapped(l: Loop, a: Attempt, c: Config): Loop {
    AfterSuspension(
      l.(swapped := true, config := c, error := NoProblem, reason := "", held := None, events := l.events + [SwapStart(c)]), a)
  }

  function Left(l: Loop, a: Attempt): Loop {
    if l.held.Some? then AfterSuspension(l.(status := Over, events := l.events + [ErrorEvent(l.held.value)]), a)
    else l.(status := Over)
  }

  predicate Swaps(p: Params, l: Loop, a: Attempt) {
    l.error != NoProblem && !l.swapped && RuntimeFallback(p, l, a).Some?
  }

  function Settle(p: Params, l: Loop, a: Attempt, succeeded: bool): Loop {
    if Swaps(p, l, a) then Swapped(l, a, RuntimeFallback(p, l, a).value)
    else if succeeded || l.error != NoProblem then Left(l, a)
    else l
  }

  predicate CountsAsTerminal(p: Params, l: Loop, d: Ending)
    requires d.Disconnect?
  {
    d.classified && (d.terminalHint || (d.fallbackOk && p.hasFallback && !l.startedWork && l.records == 0))
  }

  function WithPartial(l: Loop, text: string): Loop {
    if text == "" then l else l.(text := l.text + [Part(l.config, text)])
  }

  /** A lost stream: its partial text is kept, then it is retried or given up. */
  function Retry(p: Params, l: Loop, a: Attempt): Loop
    requires a.ending.Disconnect?
  {
    var k := WithPartial(l, a.ending.partialText);
    AfterSuspension(
      if l.retries >= p.maxRetries
      then k.(error := RetriesExhausted, events := k.events + [ErrorEvent(RetriesExhausted)], status := Over)
      else k.(retries := k.retries + 1, events := k.events + [RetryStart(k.retries + 1)]),
      a)
  }

  function Broken(l: Loop, error: string): Loop { l.(error := SdkError(error), held := Some(SdkError(error))) }

  function Conclude(p: Params, l: Loop, a: Attempt, succeeded: bool): Loop {
    match a.ending
    case Cancelled => l.(status := Closed)
    case Ended => Settle(p, l, a, succeeded)
    case Raised(e) => Settle(p, Broken(l, e), a, succeeded)
    case Disconnect(_, _, _, _, cause, e) =>
      if CountsAsTerminal(p, l, a.ending) then Settle(p, Broken(l, e).(reason := cause), a, succeeded) else Retry(p, l, a)
  }

  function Started(l: Loop): Tally { Tally(l, ZERO, false) }

  function Streamed(l: Loop, a: Attempt): Tally { TakeAll(Started(l), a.chunks) }

  function Pass(p: Params, l: Loop, a: Attempt): Loop {
    var t := Streamed(l, a);
    Conclude(p, Account(t, a), a, t.succeeded)
  }

  function RunFrom(p: Params, l: Loop, script: seq<Attempt>): Loop
    decreases |script|
  {
    if script == [] || !l.status.Looping? then l else RunFrom(p, Pass(p, l, script[0]), script[1..])
  }

  /** What the consumer has received: a finished loop appends its one cycle_done. */
  function Finish(l: Loop): seq<Event> {
    if !l.status.Over? then l.events
    else l.events + [CycleDone(Result(if l.error != NoProblem then Failed else Responded, l.text, l.error, l.reason,
                                      l.total, !l.startedWork && l.records == 0))]
  }

  // ---------------------------------------------------------------- what every pass keeps

  function FlushedTotal(f: seq<Flush>): Usage {
    if f == [] then ZERO else Merge(FlushedTotal(f[..|f| - 1]), f[|f| - 1].usage)
  }

  predicate WorkEvent(e: Event) { e.Forward? && IsWork(e.chunk) }

  /** Work came from the model in use, so it can no longer be swapped away. */
  predicate OneModel(l: Loop) {
    forall i :: 0 <= i < |l.events| && WorkEvent(l.events[i]) ==> l.startedWork && l.events[i].config == l.config
  }

  predicate NotDone(es: seq<Event>) { forall i :: 0 <= i < |es| ==> !es[i].CycleDone? }

  predicate Spoken(l: Loop) { OneModel(l) && NotDone(l.events) }

  predicate Inv(p: Params, l: Loop) { Spoken(l) && l.total == FlushedTotal(l.flushed) && l.retries <= p.maxRetries }

  /** While an attempt streams, the total is what was flushed plus the attempt's own usage. */
  predicate Balanced(t: Tally) { t.loop.total == Merge(FlushedTotal(t.loop.flushed), t.used) }

  /** Streaming leaves these alone. */
  predicate SameRound(l: Loop, m: Loop) {
    m.config == l.config && m.retries == l.retries && m.swapped == l.swapped && m.flushed == l.flushed && m.status == l.status
  }

  lemma TakeKeeps(t: Tally, c: Chunk, u: Tally)
    requires Spoken(t.loop) && Balanced(t) && u == Take(t, c)
    ensures Spoken(u.loop) && Balanced(u) && SameRound(t.loop, u.loop)
    ensures u.loop.startedWork <==> t.loop.startedWork || IsWork(c)
    ensures u.succeeded <==> t.succeeded || c.Done?
    ensures u.loop.error == if c.Terminal? then AsProblem(c.message) else t.loop.error
  {
  }

  lemma {:induction false} TakeAllKeeps(t: Tally, chunks: seq<Chunk>, u: Tally)
    requires Spoken(t.loop) && Balanced(t) && u == TakeAll(t, chunks)
    ensures Spoken(u.loop) && Balanced(u) && SameRound(t.loop, u.loop)
    ensures u.loop.startedWork <==> t.loop.startedWork || HasWork(chunks)
    ensures u.succeeded <==> t.succeeded || HasResult(chunks)
    ensures u.loop.error == if HasTerminal(chunks) then AsProblem(LastMessage(chunks)) else t.loop.error
    ensures !HasTerminal(chunks) ==> LastMessage(chunks) == ""
    decreases |chunks|
  {
    if chunks != [] {
      var shorter, last := chunks[..|chunks| - 1], chunks[|chunks| - 1];
      var m := TakeAll(t, shorter);
      TakeAllKeeps(t, shorter, m);
      TakeKeeps(m, last, u);
      LastChunk(chunks, shorter, last);
    }
  }

  lemma LastChunk(chunks: seq<Chunk>, shorter: seq<Chunk>, last: Chunk)
    requires chunks == shorter + [last]
    ensures HasWork(chunks) <==> HasWork(shorter) || IsWork(last)
    ensures HasResult(chunks) <==> HasResult(shorter) || last.Done?
    ensures HasTerminal(chunks) <==> HasTerminal(shorter) || last.Terminal?
  {
    assert chunks[|shorter|] == last && forall i :: 0 <= i < |shorter| ==> chunks[i] == shorter[i];
  }

  /** What holds of the loop when an attempt has been streamed. */
  lemma StreamedKeeps(p: Params, l: Loop, a: Attempt, t: Tally)
    requires Inv(p, l) && t == Streamed(l, a)
    ensures Spoken(t.loop) && Balanced(t) && SameRound(l, t.loop)
    ensures t.loop.startedWork <==> l.startedWork || HasWork(a.chunks)
    ensures t.succeeded <==> HasResult(a.chunks)
    ensures t.loop.error == if HasTerminal(a.chunks) then AsProblem(LastMessage(a.chunks)) else l.error
    ensures !HasTerminal(a.chunks) ==> LastMessage(a.chunks) == ""
  {
    var s := Started(l);
    StartsBalanced(l, s);
    TakeAllKeeps(s, a.chunks, t);
  }

  lemma StartsBalanced(l: Loop, s: Tally)
    requires l.total == FlushedTotal(l.flushed) && s == Started(l)
    ensures Balanced(s) && s.loop == l && !s.succeeded
  {
    MergeZero(l.total);
  }

  lemma MergeZero(u: Usage)
    ensures Merge(u, ZERO) == u
  {
  }

  lemma AccountKeeps(p: Params, t: Tally, a: Attempt, k: Loop)
    requires Spoken(t.loop) && Balanced(t) && t.loop.retries <= p.maxRetries && k == Account(t, a)
    ensures Inv(p, k) && k == t.loop.(total := k.total, records := k.records, flushed := k.flushed)
    ensures |k.flushed| == |t.loop.flushed| + 1 && k.flushed[|t.loop.flushed|].config == t.loop.config
  {
    assert k.flushed[..|k.flushed| - 1] == t.loop.flushed;
  }

  /** Adding an event that is neither work nor cycle_done. */
  lemma QuietEvent(l: Loop, k: Loop)
    requires Spoken(l) && |k.events| == |l.events| + 1 && k.events[..|l.events|] == l.events
    requires !k.events[|l.events|].Forward? && !k.events[|l.events|].CycleDone?
    requires k.startedWork == l.startedWork && (k.config == l.config || !l.startedWork)
    ensures Spoken(k)
  {
    forall i | 0 <= i < |l.events| ensures k.events[i] == l.events[i] { assert k.events[..|l.events|][i] == l.events[i]; }
  }

  lemma SettleKeeps(p: Params, l: Loop, a: Attempt, succeeded: bool)
    requires Inv(p, l)
    ensures var k := Settle(p, l, a, succeeded); Inv(p, k) && k.flushed == l.flushed
  {
    var k := Settle(p, l, a, succeeded);
    if Swaps(p, l, a) || ((succeeded || l.error != NoProblem) && l.held.Some?) {
      QuietEvent(l, k);
    }
  }

  lemma RetryKeeps(p: Params, l: Loop, a: Attempt)
    requires Inv(p, l) && a.ending.Disconnect?
    ensures Inv(p, Retry(p, l, a)) && Retry(p, l, a).flushed == l.flushed
  {
    QuietEvent(l, Retry(p, l, a));
  }

  lemma ConcludeKeeps(p: Params, l: Loop, a: Attempt, succeeded: bool, k: Loop)
    requires Inv(p, l) && k == Conclude(p, l, a, succeeded)
    ensures Inv(p, k) && k.flushed == l.flushed
  {
    match a.ending
    case Cancelled =>
    case Ended => SettleKeeps(p, l, a, succeeded);
    case Raised(e) => SettleKeeps(p, Broken(l, e), a, succeeded);
    case Disconnect(_, _, _, _, cause, e) =>
      if CountsAsTerminal(p, l, a.ending) {
        SettleKeeps(p, Broken(l, e).(reason := cause), a, succeeded);
      } else {
        RetryKeeps(p, l, a);
      }
  }

  lemma PassKeeps(p: Params, l: Loop, a: Attempt, m: Loop)
    requires Inv(p, l) && m == Pass(p, l, a)
    ensures Inv(p, m) && |m.flushed| == |l.flushed| + 1 && m.flushed[|l.flushed|].config == l.config
  {
    var t := Streamed(l, a);
    StreamedKeeps(p, l, a, t);
    var k := Account(t, a);
    AccountKeeps(p, t, a, k);
    ConcludeKeeps(p, k, a, t.succeeded, m);
  }

  lemma {:induction false} RunKeeps(p: Params, l: Loop, script: seq<Attempt>)
    requires Inv(p, l)
    ensures Inv(p, RunFrom(p, l, script))
    ensures |l.flushed| <= |RunFrom(p, l, script).flushed| <= |l.flushed| + |script|
    decreases |script|
  {
    if script != [] && l.status.Looping? {
      var m := Pass(p, l, script[0]);
      PassKeeps(p, l, script[0], m);
      RunKeeps(p, m, script[1..]);
    }
  }

  // ---------------------------------------------------------------- one model, one cycle_done, all tokens

  /** Every piece of work the consumer sees in one cycle comes from one model configuration. */
  lemma WorkFromOneModel(p: Params, script: seq<Attempt>, i: nat, j: nat)
    requires var es := Finish(RunFrom(p, Initial(p), script));
      i < |es| && j < |es| && WorkEvent(es[i]) && WorkEvent(es[j])
    ensures var es := Finish(RunFrom(p, Initial(p), script)); es[i].config == es[j].config
  {
    RunKeeps(p, Initial(p), script);
  }

  /** A finished cycle ends in its only cycle_done; an unfinished or closed one has none. */
  lemma OneCycleDone(p: Params, script: seq<Attempt>)
    ensures var l := RunFrom(p, Initial(p), script); var es := Finish(l);
      if l.status.Over? then es != [] && es[|es| - 1].CycleDone? && NotDone(es[..|es| - 1]) else NotDone(es)
  {
    RunKeeps(p, Initial(p), script);
  }

  /**
   At every point, closing and cancellation included, the running total is the sum of what was
   flushed, one flush per execution; a finished cycle reports that same total.
   */
  lemma UsageConserved(p: Params, script: seq<Attempt>)
    ensures var l := RunFrom(p, Initial(p), script);
      && l.total == FlushedTotal(l.flushed)
      && |l.flushed| == Executions(p, Initial(p), script)
      && (l.status.Over? ==> Finish(l)[|l.events|].result.usage == FlushedTotal(l.flushed))
  {
    RunKeeps(p, Initial(p), script);
    CountExecutions(p, Initial(p), script);
  }

  /** How often the executor is started. */
  function Executions(p: Params, l: Loop, script: seq<Attempt>): nat
    decreases |script|
  {
    if script == [] || !l.status.Looping? then 0 else 1 + Executions(p, Pass(p, l, script[0]), script[1..])
  }

  lemma {:induction false} CountExecutions(p: Params, l: Loop, script: seq<Attempt>)
    requires Inv(p, l)
    ensures |RunFrom(p, l, script).flushed| == |l.flushed| + Executions(p, l, script)
    ensures Executions(p, l, script) <= |script|
    decreases |script|
  {
    if script != [] && l.status.Looping? {
      var m := Pass(p, l, script[0]);
      PassKeeps(p, l, script[0], m);
      CountExecutions(p, m, script[1..]);
    }
  }

  /** Entries that are all zero are not written to the usage log; the log's sum is the total all the same. */
  function UsageLog(f: seq<Flush>): seq<Flush> {
    if f == [] then []
    else UsageLog(f[..|f| - 1]) + if f[|f| - 1].usage == ZERO then [] else [f[|f| - 1]]
  }

  lemma {:induction false} LogSumsToTotal(f: seq<Flush>)
    ensures FlushedTotal(UsageLog(f)) == FlushedTotal(f)
  {
    if f != [] {
      var shorter := f[..|f| - 1];
      LogSumsToTotal(shorter);
      if f[|f| - 1].usage == ZERO {
        assert UsageLog(f) == UsageLog(shorter);
        MergeZero(FlushedTotal(shorter));
      } else {
        assert UsageLog(f)[..|UsageLog(f)| - 1] == UsageLog(shorter);
      }
    }
  }

  // ---------------------------------------------------------------- the budget

  function Spent(l: Loop): nat {
    l.retries + (if l.swapped then 1 else 0) + (if l.status.Looping? then 0 else 1)
  }

  function IdlePasses(script: seq<Attempt>, n: nat): nat
    requires n <= |script|
  {
    if n == 0 then 0 else IdlePasses(script, n - 1) + if Idle(script[n - 1]) then 1 else 0
  }

  lemma SettleSpends(p: Params, l: Loop, a: Attempt, succeeded: bool)
    requires l.status.Looping?
    ensures Spent(Settle(p, l, a, succeeded)) >= Spent(l) + if succeeded || l.error != NoProblem then 1 else 0
  {
  }

  lemma RetrySpends(p: Params, l: Loop, a: Attempt)
    requires l.status.Looping? && a.ending.Disconnect?
    ensures Spent(Retry(p, l, a)) >= Spent(l) + 1
  {
  }

  lemma ConcludeSpends(p: Params, l: Loop, a: Attempt, succeeded: bool)
    requires l.status.Looping?
    ensures Spent(Conclude(p, l, a, succeeded)) >=
      Spent(l) + if a.ending.Ended? && !succeeded && l.error == NoProblem then 0 else 1
  {
    match a.ending
    case Cancelled =>
    case Ended => SettleSpends(p, l, a, succeeded);
    case Raised(e) => SettleSpends(p, Broken(l, e), a, succeeded);
    case Disconnect(_, _, _, _, cause, e) =>
      if CountsAsTerminal(p, l, a.ending) {
        SettleSpends(p, Broken(l, e).(reason := cause), a, succeeded);
      } else {
        RetrySpends(p, l, a);
      }
  }

  lemma PassSpends(p: Params, l: Loop, a: Attempt, m: Loop)
    requires Inv(p, l) && l.status.Looping? && m == Pass(p, l, a)
    ensures Spent(m) >= Spent(l) + if Idle(a) then 0 else 1
    ensures Spent(m) <= p.maxRetries + 2
  {
    PassKeeps(p, l, a, m);
    var t := Streamed(l, a);
    StreamedKeeps(p, l, a, t);
    var k := Account(t, a);
    AccountKeeps(p, t, a, k);
    ConcludeSpends(p, k, a, t.succeeded);
  }

  lemma {:induction false} RunSpends(p: Params, l: Loop, script: seq<Attempt>)
    requires Inv(p, l)
    ensures Executions(p, l, script) <= |script|
    ensures Spent(RunFrom(p, l, script)) + IdlePasses(script, Executions(p, l, script))
         >= Spent(l) + Executions(p, l, script)
    ensures Spent(RunFrom(p, l, script)) <= p.maxRetries + 2
    decreases |script|
  {
    CountExecutions(p, l, script);
    if script != [] && l.status.Looping? {
      var m := Pass(p, l, script[0]);
      PassKeeps(p, l, script[0], m);
      PassSpends(p, l, script[0], m);
      RunSpends(p, m, script[1..]);
      IdleShift(script, Executions(p, l, script));
    }
  }

  lemma {:induction false} IdleShift(script: seq<Attempt>, n: nat)
    requires 0 < n <= |script|
    ensures IdlePasses(script, n) == (if Idle(script[0]) then 1 else 0) + IdlePasses(script[1..], n - 1)
  {
    if n > 1 {
      IdleShift(script, n - 1);
      assert script[n - 1] == script[1..][n - 2];
    }
  }

  /**
   The executor runs at most max_retries + 2 times, plus once for every pass that ended with
   neither a result, a terminal message nor an exception.
   */
  lemma ExecutionBound(p: Params, script: seq<Attempt>)
    ensures Executions(p, Initial(p), script) <= |script|
    ensures var n := Executions(p, Initial(p), script);
      n <= p.maxRetries + 2 + IdlePasses(script, n)
  {
    RunSpends(p, Initial(p), script);
  }

  /** If no attempt is idle, max_retries + 2 attempts always bring the loop to an end. */
  lemma LoopEnds(p: Params, script: seq<Attempt>)
    requires forall i :: 0 <= i < |script| ==> !Idle(script[i])
    requires |script| >= p.maxRetries + 2
    ensures !RunFrom(p, Initial(p), script).status.Looping?
  {
    RunSpends(p, Initial(p), script);
    NoIdle(script, Executions(p, Initial(p), script));
    RunUsesScript(p, Initial(p), script);
    var l := RunFrom(p, Initial(p), script);
    RunKeeps(p, Initial(p), script);
    assert l.status.Looping? ==> Spent(l) <= p.maxRetries + 1;
  }

  lemma {:induction false} NoIdle(script: seq<Attempt>, n: nat)
    requires n <= |script| && forall i :: 0 <= i < |script| ==> !Idle(script[i])
    ensures IdlePasses(script, n) == 0
  {
    if n > 0 { NoIdle(script, n - 1); }
  }

  lemma {:induction false} RunUsesScript(p: Params, l: Loop, script: seq<Attempt>)
    ensures RunFrom(p, l, script).status.Looping? ==> Executions(p, l, script) == |script|
    decreases |script|
  {
    if script != [] && l.status.Looping? {
      RunUsesScript(p, Pass(p, l, script[0]), script[1..]);
    }
  }

  /** The pass of an idle attempt on a loop without an error goes round again and spends nothing. */
  lemma IdlePass(p: Params, l: Loop, a: Attempt, m: Loop)
    requires Inv(p, l) && l.status.Looping? && l.error == NoProblem && Idle(a) && m == Pass(p, l, a)
    ensures m.status.Looping? && m.error == NoProblem && m.retries == l.retries
  {
    var t := Streamed(l, a);
    StreamedKeeps(p, l, a, t);
    AccountKeeps(p, t, a, Account(t, a));
  }

  predicate AllIdle(script: seq<Attempt>) { script == [] || (Idle(script[0]) && AllIdle(script[1..])) }

  /** Without the contract there is no bound: attempts that just stop are run again for ever. */
  lemma IdleStreamsSpin(p: Params, script: seq<Attempt>)
    requires AllIdle(script)
    ensures var m := RunFrom(p, Initial(p), script); m.status.Looping? && m.retries == 0
    ensures Executions(p, Initial(p), script) == |script|
  {
    IdleRun(p, Initial(p), script);
    RunUsesScript(p, Initial(p), script);
  }

  lemma {:induction false} IdleRun(p: Params, l: Loop, script: seq<Attempt>)
    requires Inv(p, l) && l.status.Looping? && l.error == NoProblem && AllIdle(script)
    ensures var m := RunFrom(p, l, script); m.status.Looping? && m.retries == l.retries
    decreases |script|
  {
    if script != [] {
      var m := Pass(p, l, script[0]);
      PassKeeps(p, l, script[0], m);
      IdlePass(p, l, script[0], m);
      IdleRun(p, m, script[1..]);
    }
  }

  lemma RunsOn(p: Params, l: Loop, script: seq<Attempt>, m: Loop, rest: seq<Attempt>)
    requires script != [] && l.status.Looping? && m == Pass(p, l, script[0]) && rest == script[1..]
    ensures RunFrom(p, l, script) == RunFrom(p, m, rest) && Executions(p, l, script) == 1 + Executions(p, m, rest)
  {
  }

  // ---------------------------------------------------------------- the verdict

  lemma ContractShape(a: Attempt)
    requires Contract(a)
    ensures HasResult(a.chunks) <==> EndsInResult(a)
    ensures HasTerminal(a.chunks) ==> !HasResult(a.chunks) && LastMessage(a.chunks) != ""
    ensures a.ending.Ended? <==> HasResult(a.chunks) || HasTerminal(a.chunks)
    ensures forall i :: 0 <= i < |a.chunks| && a.chunks[i].Terminal? ==> a.chunks[i].message != ""
  {
    if HasTerminal(a.chunks) {
      var i :| 0 <= i < |a.chunks| && a.chunks[i].Terminal?;
      assert i == |a.chunks| - 1;
    } else {
      NoMessage(a.chunks);
    }
  }

  lemma {:induction false} NoMessage(chunks: seq<Chunk>)
    requires !HasTerminal(chunks)
    ensures LastMessage(chunks) == ""
  {
    if chunks != [] {
      LastChunk(chunks, chunks[..|chunks| - 1], chunks[|chunks| - 1]);
      NoMessage(chunks[..|chunks| - 1]);
    }
  }

  predicate ErrorSeen(es: seq<Event>) { exists i :: 0 <= i < |es| && es[i].ErrorEvent? }

  /** Nothing of a failure is out yet: an error is held back, and without one there is no trace of one. */
  predicate Pending(l: Loop) {
    && !ErrorSeen(l.events)
    && (if l.error == NoProblem then l.reason == "" && l.held.None? else l.held.Some?)
  }

  lemma {:induction false} TakeAllPending(t: Tally, chunks: seq<Chunk>)
    requires Pending(t.loop) && forall i :: 0 <= i < |chunks| && chunks[i].Terminal? ==> chunks[i].message != ""
    ensures Pending(TakeAll(t, chunks).loop)
  {
    if chunks != [] {
      var m := TakeAll(t, chunks[..|chunks| - 1]);
      TakeAllPending(t, chunks[..|chunks| - 1]);
      TakePending(m, chunks[|chunks| - 1]);
    }
  }

  lemma TakePending(t: Tally, c: Chunk)
    requires Pending(t.loop) && (c.Terminal? ==> c.message != "")
    ensures Pending(Take(t, c).loop)
  {
    var es := Take(t, c).loop.events;
    assert es == t.loop.events || (|es| == |t.loop.events| + 1 && es[..|t.loop.events|] == t.loop.events && es[|t.loop.events|].Forward?);
  }

  /** How a pass under the contract leaves the loop. */
  predicate Judged(k: Loop, responded: bool) {
    match k.status
    case Looping => Pending(k) && k.error == NoProblem
    case Over => (k.error == NoProblem <==> responded) && (k.error == NoProblem ==> Pending(k)) && (k.error != NoProblem ==> ErrorSeen(k.events))
    case Closed => true
  }

  lemma SettleJudges(p: Params, l: Loop, a: Attempt, succeeded: bool)
    requires l.status.Looping? && Pending(l) && (succeeded <==> l.error == NoProblem)
    ensures Judged(Settle(p, l, a, succeeded), succeeded)
  {
    var k := Settle(p, l, a, succeeded);
    assert k.status.Over? && k.error != NoProblem ==> k.events[|k.events| - 1].ErrorEvent?;
  }

  lemma RetryJudges(p: Params, l: Loop, a: Attempt)
    requires l.status.Looping? && Pending(l) && l.error == NoProblem && a.ending.Disconnect?
    ensures Judged(Retry(p, l, a), false)
  {
    var k := Retry(p, l, a);
    assert k.status.Over? ==> k.events[|k.events| - 1].ErrorEvent?;
  }

  lemma ConcludeJudges(p: Params, l: Loop, a: Attempt, succeeded: bool)
    requires l.status.Looping? && Pending(l)
    requires if a.ending.Ended? then succeeded <==> l.error == NoProblem else !succeeded && l.error == NoProblem
    ensures Judged(Conclude(p, l, a, succeeded), succeeded)
  {
    match a.ending
    case Cancelled =>
    case Ended => SettleJudges(p, l, a, succeeded);
    case Raised(e) => SettleJudges(p, Broken(l, e), a, succeeded);
    case Disconnect(_, _, _, _, cause, e) =>
      if CountsAsTerminal(p, l, a.ending) {
        SettleJudges(p, Broken(l, e).(reason := cause), a, succeeded);
      } else {
        RetryJudges(p, l, a);
      }
  }

  lemma PassJudges(p: Params, l: Loop, a: Attempt, m: Loop)
    requires Inv(p, l) && l.status.Looping? && Pending(l) && l.error == NoProblem && Contract(a) && m == Pass(p, l, a)
    ensures Judged(m, EndsInResult(a))
  {
    var t := Streamed(l, a);
    ContractShape(a);
    StreamedKeeps(p, l, a, t);
    TakeAllPending(Started(l), a.chunks);
    var k := Account(t, a);
    AccountKeeps(p, t, a, k);
    ConcludeJudges(p, k, a, t.succeeded);
  }

  /** A finished cycle is judged by its last attempt alone. */
  lemma {:induction false} LastAttemptDecides(p: Params, l: Loop, script: seq<Attempt>)
    requires Inv(p, l) && l.status.Looping? && Pending(l) && l.error == NoProblem
    requires forall i :: 0 <= i < |script| ==> Contract(script[i])
    requires RunFrom(p, l, script).status.Over?
    ensures 0 < Executions(p, l, script) <= |script|
    ensures Judged(RunFrom(p, l, script), EndsInResult(script[Executions(p, l, script) - 1]))
    decreases |script|
  {
    CountExecutions(p, l, script);
    var m := Pass(p, l, script[0]);
    PassKeeps(p, l, script[0], m);
    PassJudges(p, l, script[0], m);
    if m.status.Looping? {
      LastAttemptDecides(p, m, script[1..]);
      CountExecutions(p, m, script[1..]);
    }
  }

  /** With one ending per attempt, whether a finished cycle failed depends on its last attempt alone. */
  lemma {:induction false} LastAttemptActs(p: Params, l: Loop, script: seq<Attempt>)
    requires Inv(p, l) && l.status.Looping? && l.error == NoProblem && AllOneEnding(script) && RunFrom(p, l, script).status.Over?
    ensures 0 < Executions(p, l, script) <= |script|
    ensures RunFrom(p, l, script).error == NoProblem <==> EndsInResult(script[Executions(p, l, script) - 1])
    decreases |script|
  {
    CountExecutions(p, l, script);
    var m := Pass(p, l, script[0]);
    PassKeeps(p, l, script[0], m);
    ResultEndsLoop(p, l, script[0], m);
    if m.status.Looping? {
      LastAttemptActs(p, m, script[1..]);
      CountExecutions(p, m, script[1..]);
    }
  }

  /**
   The verdict of a finished cycle with one ending per attempt: an error exactly when the last attempt
   gave no result. If also no attempt was idle, an error event exactly then, and no leftover failure
   reason on a cycle that responded.
   */
  lemma Verdict(p: Params, script: seq<Attempt>)
    requires AllOneEnding(script) && RunFrom(p, Initial(p), script).status.Over?
    ensures 0 < Executions(p, Initial(p), script) <= |script|
    ensures var l := RunFrom(p, Initial(p), script);
      var r := Finish(l)[|l.events|].result;
      var last := script[Executions(p, Initial(p), script) - 1];
      && (r.action.Failed? <==> !EndsInResult(last))
      && (r.action.Responded? ==> r.error == NoProblem)
      && ((forall i :: 0 <= i < |script| ==> !Idle(script[i])) ==>
            (r.action.Failed? <==> ErrorSeen(Finish(l))) && (r.action.Responded? ==> r.reason == ""))
  {
    LastAttemptActs(p, Initial(p), script);
    if forall i :: 0 <= i < |script| ==> !Idle(script[i]) {
      LastAttemptDecides(p, Initial(p), script);
      ErrorStays(RunFrom(p, Initial(p), script));
    }
  }

  lemma ErrorStays(l: Loop)
    ensures ErrorSeen(Finish(l)) <==> ErrorSeen(l.events)
  {
    if ErrorSeen(l.events) {
      var i :| 0 <= i < |l.events| && l.events[i].ErrorEvent?;
      assert Finish(l)[i].ErrorEvent?;
    }
  }

  /** Without it, a stale error outlives a retry: the last attempt gives a result, the cycle reports failure. */
  lemma StaleErrorSurvivesRetry(p: Params)
    requires p.maxRetries > 0 && !p.hasFallback
    ensures var none := Observed(ZERO, false, 0);
      var broken := Attempt([Terminal("overloaded", "", none)], Disconnect("", false, false, false, "", ""), none, false, false, p.start);
      var good := Attempt([Done("answer", none)], Ended, none, false, false, p.start);
      var l := RunFrom(p, Initial(p), [broken, good]);
      l.status.Over? && EndsInResult(good) && l.error == Reported("overloaded")
  {
    var none := Observed(ZERO, false, 0);
    var broken := Attempt([Terminal("overloaded", "", none)], Disconnect("", false, false, false, "", ""), none, false, false, p.start);
    var good := Attempt([Done("answer", none)], Ended, none, false, false, p.start);
    assert [broken, good][1..] == [good] && [good][1..] == [];
    OneChunk(Started(Initial(p)), broken.chunks[0]);
    var l1 := Pass(p, Initial(p), broken);
    assert l1.status.Looping? && l1.error == Reported("overloaded") && !l1.swapped;
    OneChunk(Started(l1), good.chunks[0]);
    var l2 := Pass(p, l1, good);
    assert l2.status.Over? && l2.error == Reported("overloaded");
    assert RunFrom(p, l1, [good]) == l2;
  }

  lemma OneChunk(t: Tally, c: Chunk)
    ensures TakeAll(t, [c]) == Take(t, c)
  {
    assert [c][..0] == [];
    assert TakeAll(t, []) == t;
  }

  // ---------------------------------------------------------------- the summary

  /** All non-empty parts of the summary come from one configuration. */
  predicate OneVoice(text: seq<Part>) {
    forall i, j :: 0 <= i < |text| && 0 <= j < |text| && text[i].text != "" && text[j].text != "" ==> text[i].config == text[j].config
  }

  ghost predicate SummaryOneVoice(p: Params, script: seq<Attempt>) { OneVoice(RunFrom(p, Initial(p), script).text) }

  predicate SpeaksAs(text: seq<Part>, c: Config) { forall i :: 0 <= i < |text| && text[i].text != "" ==> text[i].config == c }

  lemma {:induction false} TakeAllSpeaks(t: Tally, chunks: seq<Chunk>, u: Tally)
    requires SpeaksAs(t.loop.text, t.loop.config) && u == TakeAll(t, chunks)
    ensures SpeaksAs(u.loop.text, u.loop.config) && u.loop.config == t.loop.config && (!HasResult(chunks) ==> u.loop.text == t.loop.text)
    decreases |chunks|
  {
    if chunks != [] {
      var shorter := chunks[..|chunks| - 1];
      LastChunk(chunks, shorter, chunks[|chunks| - 1]);
      TakeAllSpeaks(t, shorter, TakeAll(t, shorter));
    }
  }

  lemma ConcludeAdds(p: Params, l: Loop, a: Attempt, succeeded: bool)
    ensures var k := Conclude(p, l, a, succeeded);
      k.text == l.text || (a.ending.Disconnect? && k.text == l.text + [Part(l.config, a.ending.partialText)])
  {
    match a.ending
    case Cancelled =>
    case Ended => SettleText(p, l, a, succeeded);
    case Raised(e) => SettleText(p, Broken(l, e), a, succeeded);
    case Disconnect(_, _, _, _, cause, e) =>
      if CountsAsTerminal(p, l, a.ending) { SettleText(p, Broken(l, e).(reason := cause), a, succeeded); } else { RetryText(p, l, a); }
  }

  lemma SettleText(p: Params, l: Loop, a: Attempt, succeeded: bool)
    ensures var k := Settle(p, l, a, succeeded);
      && k.text == l.text && k.retries == l.retries && (!p.hasFallback || l.error == NoProblem ==> k.config == l.config)
      && (l.status.Looping? && k.status.Looping? ==> k.error == NoProblem && (succeeded ==> l.error != NoProblem))
      && (l.status.Looping? && k.status.Over? ==> k.error == l.error && (succeeded || l.error != NoProblem))
  {
  }

  lemma RetryText(p: Params, l: Loop, a: Attempt)
    requires a.ending.Disconnect?
    ensures var k := Retry(p, l, a);
      && (k.text == l.text || k.text == l.text + [Part(l.config, a.ending.partialText)]) && k.config == l.config
      && (k.status.Looping? ==> k.error == l.error && k.retries > l.retries && p.maxRetries > 0)
      && (l.status.Looping? && k.status.Over? ==> k.error != NoProblem)
  {
  }

  /** Parts are added under the model in use. */
  lemma PassSpeaks(p: Params, l: Loop, a: Attempt, m: Loop)
    requires SpeaksAs(l.text, l.config) && m == Pass(p, l, a)
    ensures SpeaksAs(m.text, l.config)
  {
    var t := Streamed(l, a);
    TakeAllSpeaks(Started(l), a.chunks, t);
    var k := Account(t, a);
    ConcludeAdds(p, k, a, t.succeeded);
    assert k.text == t.loop.text && k.config == l.config;
  }

  /** Without a fallback chain the model never changes, so neither does the voice. */
  lemma {:induction false} NoFallbackOneVoice(p: Params, l: Loop, script: seq<Attempt>)
    requires !p.hasFallback && SpeaksAs(l.text, l.config)
    ensures SpeaksAs(RunFrom(p, l, script).text, l.config)
    decreases |script|
  {
    if script != [] && l.status.Looping? {
      var m := Pass(p, l, script[0]);
      PassSpeaks(p, l, script[0], m);
      SameModel(p, l, script[0], m);
      NoFallbackOneVoice(p, m, script[1..]);
    }
  }

  lemma SameModel(p: Params, l: Loop, a: Attempt, m: Loop)
    requires !p.hasFallback && m == Pass(p, l, a)
    ensures m.config == l.config
  {
    var t := Streamed(l, a);
    TakeAllConfig(Started(l), a.chunks);
    ConcludeConfig(p, Account(t, a), a, t.succeeded);
  }

  lemma {:induction false} TakeAllConfig(t: Tally, chunks: seq<Chunk>)
    ensures TakeAll(t, chunks).loop.config == t.loop.config
  {
    if chunks != [] { TakeAllConfig(t, chunks[..|chunks| - 1]); }
  }

  lemma ConcludeConfig(p: Params, l: Loop, a: Attempt, succeeded: bool)
    requires !p.hasFallback
    ensures Conclude(p, l, a, succeeded).config == l.config
  {
    match a.ending
    case Cancelled =>
    case Ended => SettleText(p, l, a, succeeded);
    case Raised(e) => SettleText(p, Broken(l, e), a, succeeded);
    case Disconnect(_, _, _, _, cause, e) =>
      if CountsAsTerminal(p, l, a.ending) { SettleText(p, Broken(l, e).(reason := cause), a, succeeded); } else { RetryText(p, l, a); }
  }

  lemma TwoVoices(text: seq<Part>, c: Config, d: Config)
    requires c != d && text == [Part(c, "half"), Part(d, "whole")]
    ensures !OneVoice(text)
  {
    assert text[0].config == c && text[1].config == d;
  }

  /** The summary has one voice for every executor exactly if there is no fallback chain. */
  lemma SummaryExact(p: Params)
    ensures (forall script :: SummaryOneVoice(p, script)) <==> !p.hasFallback
  {
    if p.hasFallback {
      var other := p.start.(model := p.start.model + "x");
      assert |other.model| > |p.start.model|;
      var script := ErrorThenResult(p, other);
      TwoVoices(RunFrom(p, Initial(p), script).text, p.start, other);
      assert !SummaryOneVoice(p, script);
    } else {
      forall script ensures SummaryOneVoice(p, script) { NoFallbackOneVoice(p, Initial(p), script); }
    }
  }

  /** A plain result, on a loop without an error, adds its text under the model in use. */
  lemma ResultPass(p: Params, l: Loop, a: Attempt, text: string, m: Loop)
    requires l.status.Looping? && l.error == NoProblem && a.ending.Ended? && m == Pass(p, l, a)
    requires |a.chunks| == 1 && a.chunks[0] == Done(text, Observed(ZERO, false, 0))
    ensures m.text == l.text + [Part(l.config, text)]
  {
    assert a.chunks == [a.chunks[0]];
    OneChunk(Started(l), a.chunks[0]);
  }

  /** An attempt that reports a terminal error and then a result is kept in the summary and swapped away. */
  lemma ErrorThenResult(p: Params, other: Config) returns (script: seq<Attempt>)
    requires p.hasFallback && other != p.start
    ensures RunFrom(p, Initial(p), script).text == [Part(p.start, "half"), Part(other, "whole")]
  {
    var none := Observed(ZERO, false, 0);
    var mixed := Attempt([Terminal("overloaded", "", none), Done("half", none)], Ended, none, false, true, other);
    var good := Attempt([Done("whole", none)], Ended, none, false, true, other);
    script := [mixed, good];
    var l := Initial(p);
    var l1 := Pass(p, l, mixed);
    MixedPass(p, l, mixed, l1);
    var l2 := Pass(p, l1, good);
    ResultPass(p, l1, good, "whole", l2);
    RunsOn(p, l1, [good], l2, []);
    assert script[1..] == [good];
    RunsOn(p, l, script, l1, [good]);
  }

  lemma MixedPass(p: Params, l: Loop, a: Attempt, m: Loop)
    requires l == Initial(p) && p.hasFallback && a.resolved != p.start && a.hintOk && !a.closed && a.ending.Ended?
    requires |a.chunks| == 2 && a.chunks[0] == Terminal("overloaded", "", Observed(ZERO, false, 0))
    requires a.chunks[1] == Done("half", Observed(ZERO, false, 0)) && m == Pass(p, l, a)
    ensures m.status.Looping? && m.error == NoProblem && m.config == a.resolved && m.text == [Part(p.start, "half")]
  {
    var s := Started(l);
    assert a.chunks[..1] == [a.chunks[0]];
    OneChunk(s, a.chunks[0]);
    var t := Take(Take(s, a.chunks[0]), a.chunks[1]);
    assert TakeAll(s, a.chunks) == t;
    assert t.loop.error == Reported("overloaded") && t.loop.records == 0 && !t.loop.startedWork;
  }

  // With one ending per attempt, a retry is the only way for text to outlive its attempt.

  lemma ResultEndsLoop(p: Params, l: Loop, a: Attempt, m: Loop)
    requires Inv(p, l) && l.status.Looping? && l.error == NoProblem && OneEnding(a) && m == Pass(p, l, a)
    ensures m.status.Looping? ==> !HasResult(a.chunks) && m.error == NoProblem
    ensures m.status.Over? ==> (m.error == NoProblem <==> EndsInResult(a))
    ensures m.status.Looping? && m.text != l.text ==> m.retries > l.retries && m.config == l.config
    ensures m.status.Looping? && p.maxRetries == 0 ==> m.text == l.text
  {
    var t := Streamed(l, a);
    StreamedKeeps(p, l, a, t);
    OneEndingShape(a);
    TextOfStream(Started(l), a.chunks);
    var k := Account(t, a);
    AccountKeeps(p, t, a, k);
    ConcludeText(p, k, a, t.succeeded);
  }

  lemma OneEndingShape(a: Attempt)
    requires OneEnding(a)
    ensures HasResult(a.chunks) ==> a.ending.Ended? && !HasTerminal(a.chunks)
    ensures HasTerminal(a.chunks) ==> a.ending.Ended?
    ensures HasResult(a.chunks) <==> EndsInResult(a)
  {
  }

  lemma {:induction false} TextOfStream(t: Tally, chunks: seq<Chunk>)
    ensures !HasResult(chunks) ==> TakeAll(t, chunks).loop.text == t.loop.text
  {
    if chunks != [] {
      LastChunk(chunks, chunks[..|chunks| - 1], chunks[|chunks| - 1]);
      TextOfStream(t, chunks[..|chunks| - 1]);
    }
  }

  lemma ConcludeText(p: Params, l: Loop, a: Attempt, succeeded: bool)
    requires l.status.Looping? && (l.error != NoProblem ==> a.ending.Ended? && !succeeded) && (succeeded ==> a.ending.Ended?)
    ensures var k := Conclude(p, l, a, succeeded);
      && (k.status.Looping? ==> !succeeded && k.error == NoProblem)
      && (k.status.Looping? && k.text != l.text ==> k.retries > l.retries && k.config == l.config && p.maxRetries > 0)
      && (k.status.Over? ==> (k.error == NoProblem <==> succeeded))
  {
    match a.ending
    case Cancelled =>
    case Ended => SettleText(p, l, a, succeeded);
    case Raised(e) => SettleText(p, Broken(l, e), a, succeeded);
    case Disconnect(_, _, _, _, cause, e) =>
      if CountsAsTerminal(p, l, a.ending) { SettleText(p, Broken(l, e).(reason := cause), a, succeeded); } else { RetryText(p, l, a); }
  }

  /** Without retries nothing outlives an attempt, so a finished loop has at most one part. */
  lemma {:induction false} NoRetryOneVoice(p: Params, l: Loop, script: seq<Attempt>)
    requires Inv(p, l) && l.error == NoProblem && l.status.Looping? && l.text == [] && p.maxRetries == 0 && AllOneEnding(script)
    ensures OneVoice(RunFrom(p, l, script).text)
    decreases |script|
  {
    if script != [] {
      var m := Pass(p, l, script[0]);
      PassKeeps(p, l, script[0], m);
      PassSpeaks(p, l, script[0], m);
      ResultEndsLoop(p, l, script[0], m);
      if m.status.Looping? { NoRetryOneVoice(p, m, script[1..]); }
    }
  }

  /** With one ending per attempt, the summary has one voice exactly without retries or without a fallback chain. */
  lemma SummaryExactOneEnding(p: Params)
    ensures (forall script | AllOneEnding(script) :: SummaryOneVoice(p, script)) <==> p.maxRetries == 0 || !p.hasFallback
  {
    if p.maxRetries == 0 {
      forall script | AllOneEnding(script) ensures SummaryOneVoice(p, script) { NoRetryOneVoice(p, Initial(p), script); }
    } else if p.hasFallback {
      var other := p.start.(model := p.start.model + "x");
      assert |other.model| > |p.start.model|;
      var script := LostThenRefused(p, other);
      TwoVoices(RunFrom(p, Initial(p), script).text, p.start, other);
      assert !SummaryOneVoice(p, script);
    } else {
      forall script ensures SummaryOneVoice(p, script) { NoFallbackOneVoice(p, Initial(p), script); }
    }
  }

  /**
   Text reported only by the lost stream is kept, the retry fails before producing work, and the
   swapped-in model adds its own answer.
   */
  lemma LostThenRefused(p: Params, other: Config) returns (script: seq<Attempt>)
    requires p.maxRetries > 0 && p.hasFallback && other != p.start
    ensures AllOneEnding(script) && RunFrom(p, Initial(p), script).text == [Part(p.start, "half"), Part(other, "whole")]
  {
    var none := Observed(ZERO, false, 0);
    var lost := Attempt([], Disconnect("half", false, false, true, "", ""), none, false, true, other);
    var refused := Attempt([Terminal("overloaded", "overloaded", none)], Ended, none, false, true, other);
    var answer := Attempt([Done("whole", none)], Ended, none, false, true, other);
    script := [lost, refused, answer];
    var l := Initial(p);
    var l1 := Pass(p, l, lost);
    LostPass(p, l, lost, l1);
    var l2 := Pass(p, l1, refused);
    RefusedPass(p, l1, refused, l2);
    var l3 := Pass(p, l2, answer);
    ResultPass(p, l2, answer, "whole", l3);
    assert script[1..] == [refused, answer] && [refused, answer][1..] == [answer];
    RunsOn(p, l2, [answer], l3, []);
    RunsOn(p, l1, [refused, answer], l2, [answer]);
    RunsOn(p, l, script, l1, [refused, answer]);
  }

  lemma LostPass(p: Params, l: Loop, a: Attempt, m: Loop)
    requires l == Initial(p) && p.maxRetries > 0 && a.chunks == [] && !a.closed && m == Pass(p, l, a)
    requires a.ending == Disconnect("half", false, false, true, "", "") && a.observed == Observed(ZERO, false, 0)
    ensures m.status.Looping? && m.error == NoProblem && m.config == l.config && m.text == [Part(p.start, "half")]
    ensures !m.startedWork && m.records == 0 && !m.swapped
  {
  }

  lemma RefusedPass(p: Params, l: Loop, a: Attempt, m: Loop)
    requires l.status.Looping? && p.hasFallback && !l.startedWork && l.records == 0 && !l.swapped
    requires a.resolved != l.config && a.hintOk && !a.closed && a.ending.Ended? && m == Pass(p, l, a)
    requires |a.chunks| == 1 && a.chunks[0] == Terminal("overloaded", "overloaded", Observed(ZERO, false, 0))
    ensures m.status.Looping? && m.error == NoProblem && m.config == a.resolved && m.text == l.text
  {
    assert a.chunks == [a.chunks[0]];
    OneChunk(Started(l), a.chunks[0]);
  }

  /** Text that arrives with a lost stream had been streamed before. */
  predicate PartialWasStreamed(a: Attempt) {
    a.ending.Disconnect? && a.ending.partialText != "" ==> HasWork(a.chunks)
  }

  /** While the loop goes on, text means work, and work keeps the model. */
  predicate Committed(l: Loop) {
    SpeaksAs(l.text, l.config) && (forall i :: 0 <= i < |l.text| && l.text[i].text != "" ==> l.startedWork)
  }

  lemma ConcludeCommitted(p: Params, l: Loop, a: Attempt, succeeded: bool)
    requires l.status.Looping? && Committed(l)
    requires a.ending.Disconnect? && a.ending.partialText != "" ==> l.startedWork
    ensures Committed(Conclude(p, l, a, succeeded))
  {
    match a.ending
    case Cancelled =>
    case Ended => SettleCommitted(p, l, a, succeeded);
    case Raised(e) => SettleCommitted(p, Broken(l, e), a, succeeded);
    case Disconnect(_, _, _, _, cause, e) =>
      if CountsAsTerminal(p, l, a.ending) { SettleCommitted(p, Broken(l, e).(reason := cause), a, succeeded); }
  }

  lemma SettleCommitted(p: Params, l: Loop, a: Attempt, succeeded: bool)
    requires Committed(l)
    ensures Committed(Settle(p, l, a, succeeded))
  {
  }

  /** The pass of an attempt with one ending keeps the voice, if lost text had been streamed. */
  lemma PassCommitted(p: Params, l: Loop, a: Attempt, m: Loop)
    requires Inv(p, l) && l.status.Looping? && l.error == NoProblem && Committed(l)
    requires OneEnding(a) && PartialWasStreamed(a) && m == Pass(p, l, a)
    ensures m.status.Looping? ==> Committed(m) && m.error == NoProblem
    ensures SpeaksAs(m.text, m.config)
  {
    var t := Streamed(l, a);
    StreamedKeeps(p, l, a, t);
    OneEndingShape(a);
    TextOfStream(Started(l), a.chunks);
    ResultEndsLoop(p, l, a, m);
    var k := Account(t, a);
    AccountKeeps(p, t, a, k);
    if HasResult(a.chunks) {
      PassSpeaks(p, l, a, m);
      assert m.config == l.config;
    } else {
      ConcludeCommitted(p, k, a, t.succeeded);
    }
  }

  /** Per script: if lost text had been streamed, summary and streamed work speak for the model in use at the end. */
  lemma SummaryFromOneModel(p: Params, script: seq<Attempt>)
    requires AllOneEnding(script) && forall k :: 0 <= k < |script| ==> PartialWasStreamed(script[k])
    ensures var m := RunFrom(p, Initial(p), script);
      SpeaksAs(m.text, m.config) && forall i :: 0 <= i < |m.events| && WorkEvent(m.events[i]) ==> m.events[i].config == m.config
  {
    CommittedRun(p, Initial(p), script);
    RunKeeps(p, Initial(p), script);
  }

  lemma {:induction false} CommittedRun(p: Params, l: Loop, script: seq<Attempt>)
    requires Inv(p, l) && l.status.Looping? && l.error == NoProblem && Committed(l) && AllOneEnding(script)
    requires forall k :: 0 <= k < |script| ==> PartialWasStreamed(script[k])
    ensures var m := RunFrom(p, l, script); SpeaksAs(m.text, m.config)
    decreases |script|
  {
    if script != [] {
      var m := Pass(p, l, script[0]);
      PassKeeps(p, l, script[0], m);
      PassCommitted(p, l, script[0], m);
      if m.status.Looping? { CommittedRun(p, m, script[1..]); }
    }
  }

  // ---------------------------------------------------------------- the loop itself

  /** The body of the `async for` over one attempt's chunks. */
  method TakeChunk(l: Loop, used: Usage, succeeded: bool, c: Chunk) returns (m: Loop, attemptUsage: Usage, streamSucceeded: bool)
    ensures Tally(m, attemptUsage, streamSucceeded) == Take(Tally(l, used, succeeded), c)
  {
    m, attemptUsage, streamSucceeded := l, used, succeeded;
    if c.ToolStart? || c.ToolEnd? || (c.Text? && c.text != "") {
      m := m.(startedWork := true);
    }
    if c.UsageReport? {
      m := m.(total := Merge(m.total, c.usage));
      attemptUsage := Merge(attemptUsage, c.usage);
    } else if c.Done? || c.Terminal? {
      var usage := if c.observed.alreadyEmitted then ZERO else c.observed.usage;
      m := m.(total := Merge(m.total, usage), records := m.records + c.observed.records);
      attemptUsage := Merge(attemptUsage, usage);
      if c.Done? {
        m := m.(text := m.text + [Part(m.config, c.fullText)]);
        streamSucceeded := true;
      } else {
        m := m.(error := AsProblem(c.message), reason := c.reason, held := Some(Reported(c.message)));
      }
    } else {
      m := m.(events := m.events + [Forward(m.config, c)]);
    }
  }

  /** The `async for` over one attempt's chunks. */
  method StreamChunks(l: Loop, chunks: seq<Chunk>) returns (t: Tally)
    ensures t == TakeAll(Started(l), chunks)
  {
    var m, attemptUsage, streamSucceeded := l, ZERO, false;
    for i := 0 to |chunks|
      invariant Tally(m, attemptUsage, streamSucceeded) == TakeAll(Started(l), chunks[..i])
    {
      assert chunks[..i + 1][..i] == chunks[..i];
      m, attemptUsage, streamSucceeded := TakeChunk(m, attemptUsage, streamSucceeded, chunks[i]);
    }
    assert chunks[..|chunks|] == chunks;
    t := Tally(m, attemptUsage, streamSucceeded);
  }

  /** The accounting of an exception, and the flush of the finally block. */
  method FlushAttempt(t: Tally, a: Attempt) returns (m: Loop)
    ensures m == Account(t, a)
  {
    m := t.loop;
    var attemptUsage := t.used;
    if !a.ending.Ended? {
      var usage := if a.observed.alreadyEmitted then ZERO else a.observed.usage;
      m := m.(total := Merge(m.total, usage));
      attemptUsage := Merge(attemptUsage, usage);
      if !a.ending.Cancelled? {
        m := m.(records := m.records + a.observed.records);
      }
    }
    m := m.(flushed := m.flushed + [Flush(m.config, attemptUsage)]);
  }

  /** A lost stream: keep its partial text, then retry or give up. */
  method HandleDisconnect(p: Params, l0: Loop, a: Attempt) returns (l: Loop)
    requires a.ending.Disconnect?
    ensures l == Retry(p, l0, a)
  {
    l := l0;
    if a.ending.partialText != "" {
      l := l.(text := l.text + [Part(l.config, a.ending.partialText)]);
    }
    if l.retries >= p.maxRetries {
      l := l.(error := RetriesExhausted, events := l.events + [ErrorEvent(RetriesExhausted)], status := Over);
    } else {
      l := l.(retries := l.retries + 1, events := l.events + [RetryStart(l.retries + 1)]);
    }
    if a.closed {
      l := l.(status := Closed);
    }
  }

  /** After the flush: swap to another model, leave the loop, or go round again. */
  method SwapOrLeave(p: Params, l0: Loop, a: Attempt, succeeded: bool) returns (l: Loop)
    ensures l == Settle(p, l0, a, succeeded)
  {
    l := l0;
    if l.error != NoProblem && !l.swapped && p.hasFallback {
      var partialExecution := l.startedWork || l.records > 0;
      if !partialExecution && a.hintOk && a.resolved != l.config {
        l := l.(swapped := true, config := a.resolved, error := NoProblem, reason := "", held := None,
                events := l.events + [SwapStart(a.resolved)]);
        return if a.closed then l.(status := Closed) else l;
      }
    }
    if succeeded || l.error != NoProblem {
      l := l.(status := Over);
      if l.held.Some? {
        l := l.(events := l.events + [ErrorEvent(l.held.value)]);
        return if a.closed then l.(status := Closed) else l;
      }
    }
  }

  /** The except clauses of one pass and what follows them. */
  method ConcludeAttempt(p: Params, l: Loop, a: Attempt, succeeded: bool) returns (m: Loop)
    ensures m == Conclude(p, l, a, succeeded)
  {
    match a.ending {
      case Cancelled => m := l.(status := Closed);
      case Ended => m := SwapOrLeave(p, l, a, succeeded);
      case Raised(e) => m := SwapOrLeave(p, l.(error := SdkError(e), held := Some(SdkError(e))), a, succeeded);
      case Disconnect(_, classified, terminalHint, fallbackOk, cause, e) =>
        var canRoute := fallbackOk && p.hasFallback && !l.startedWork && l.records == 0;
        if classified && (terminalHint || canRoute) {
          m := SwapOrLeave(p, l.(error := SdkError(e), reason := cause, held := Some(SdkError(e))), a, succeeded);
        } else {
          m := HandleDisconnect(p, l, a);
        }
    }
  }

  /** One round of the loop. */
  method RunAttempt(p: Params, l: Loop, a: Attempt) returns (m: Loop)
    ensures m == Pass(p, l, a)
  {
    var t := StreamChunks(l, a.chunks);
    var k := FlushAttempt(t, a);
    m := ConcludeAttempt(p, k, a, t.succeeded);
  }

  /** The `while True` of the streaming cycle, with its one cycle_done at the end. */
  method RunStreamingCycle(p: Params, script: seq<Attempt>) returns (l: Loop, events: seq<Event>)
    ensures l == RunFrom(p, Initial(p), script) && events == Finish(l)
  {
    l := Initial(p);
    var i := 0;
    while i < |script| && l.status.Looping?
      invariant i <= |script|
      invariant RunFrom(p, Initial(p), script) == RunFrom(p, l, script[i..])
      decreases |script| - i
    {
      RunFromUnfolds(p, l, script, i);
      l := RunAttempt(p, l, script[i]);
      i := i + 1;
    }
    events := l.events;
    if l.status.Over? {
      var action := if l.error != NoProblem then Failed else Responded;
      events := events + [CycleDone(Result(action, l.text, l.error, l.reason, l.total, !(l.startedWork || l.records > 0)))];
    }
  }

  lemma RunFromUnfolds(p: Params, l: Loop, script: seq<Attempt>, i: nat)
    requires i < |script| && l.status.Looping?
    ensures RunFrom(p, l, script[i..]) == RunFrom(p, Pass(p, l, script[i]), script[i + 1..])
  {
    assert script[i..][1..] == script[i + 1..];
  }
}
