/**
 The chat fallback walk around the streaming cycle: forward a cycle's chunks, and start over on
 another model as long as nothing was delivered and the resolver names one not tried yet.
 */
module ChatWalk {
  import opened Options
  import opened StreamCycle

  /**
   One streaming cycle of the walk. `answers[i]` is what the resolver returns if event i carries a
   failure reason; `raised` is set when the cycle raises instead of finishing, after `cut` events,
   and then holds the resolver's answer for the exception, if its reason allows a fallback.
   */
  datatype Cycle = Cycle(
    maxRetries: nat, hasFallback: bool, script: seq<Attempt>, answers: seq<Option<Config>>, raised: Option<Option<Config>>, cut: nat)

  /** The cycle starts on the model that the walk is at. */
  function ParamsFor(c: Cycle, current: Config): Params { Params(c.maxRetries, current, c.hasFallback) }

  function Events(c: Cycle, current: Config): seq<Event> {
    var p := ParamsFor(c, current);
    var l := RunFrom(p, StreamCycle.Initial(p), c.script);
    if c.raised.None? then Finish(l) else if c.cut < |l.events| then l.events[..c.cut] else l.events
  }

  datatype Outcome = Walking | Returned | RaisedOut
  datatype Walk = Walk(current: Config, tried: seq<Config>, out: seq<Event>, outcome: Outcome)

  function Start(active: Config): Walk { Walk(active, [], [], Walking) }

  /** Text (empty or not) and tool chunks: after one of them the walk is committed. */
  predicate Payload(e: Event) { e.Forward? && (e.chunk.Text? || e.chunk.ToolStart? || e.chunk.ToolEnd?) }

  predicate NoPayload(es: seq<Event>) { forall i :: 0 <= i < |es| ==> !Payload(es[i]) }

  /** The model to move on to, if the resolver's answer differs from everything tried. */
  predicate Usable(w: Walk, answer: Option<Config>) {
    answer.Some? && answer.value != w.current && answer.value !in w.tried
  }

  /** Error chunks, terminal or not, and the final result are asked for a failure reason. */
  predicate Asked(e: Event) { e.ErrorEvent? || e.CycleDone? || (e.Forward? && e.chunk.Complaint?) }

  function Answer(e: Event, answers: seq<Option<Config>>, i: nat): Option<Config> {
    if Asked(e) && i < |answers| then answers[i] else None
  }

  /** How many events of a cycle are forwarded before the walk moves on, counted from i. */
  function Stop(w: Walk, es: seq<Event>, answers: seq<Option<Config>>, i: nat): nat
    requires i <= |es|
    decreases |es| - i
  {
    if i == |es| || (NoPayload(es[..i]) && Usable(w, Answer(es[i], answers, i))) then i
    else Stop(w, es, answers, i + 1)
  }

  /**
   Event j moves the walk on: no text and no tool chunk came before it, it is an error chunk, terminal or
   not, or the result, and the resolver answers with a model that differs from the current and all tried ones.
   */
  predicate MovesOn(current: Config, tried: seq<Config>, es: seq<Event>, answers: seq<Option<Config>>, j: nat)
    requires j < |es|
  {
    && (forall i :: 0 <= i < j && es[i].Forward? ==> !es[i].chunk.Text? && !es[i].chunk.ToolStart? && !es[i].chunk.ToolEnd?)
    && (es[j].ErrorEvent? || es[j].CycleDone? || (es[j].Forward? && es[j].chunk.Complaint?))
    && j < |answers| && answers[j].Some? && answers[j].value != current && answers[j].value !in tried
  }

  lemma MovesOnIff(w: Walk, es: seq<Event>, answers: seq<Option<Config>>, j: nat)
    requires j < |es|
    ensures MovesOn(w.current, w.tried, es, answers, j) <==> NoPayload(es[..j]) && Usable(w, Answer(es[j], answers, j))
    ensures MovesOn(w.current, w.tried, es, answers, j) ==> Answer(es[j], answers, j) == answers[j]
  {
    assert forall i :: 0 <= i < j ==> es[..j][i] == es[i];
  }

  /** The walk moves on at the first event that does, and forwards everything if there is none. */
  lemma {:induction false} StopIsFirst(w: Walk, es: seq<Event>, answers: seq<Option<Config>>, i: nat)
    requires i <= |es|
    ensures var n := Stop(w, es, answers, i);
      && i <= n <= |es| && (n < |es| ==> MovesOn(w.current, w.tried, es, answers, n))
      && (forall j :: i <= j < n ==> !MovesOn(w.current, w.tried, es, answers, j))
    ensures var n := Stop(w, es, answers, i);
      n < |es| ==> NoPayload(es[..n]) && Usable(w, Answer(es[n], answers, n))
    decreases |es| - i
  {
    if i < |es| {
      MovesOnIff(w, es, answers, i);
      if !(NoPayload(es[..i]) && Usable(w, Answer(es[i], answers, i))) {
        StopIsFirst(w, es, answers, i + 1);
      }
    }
  }

  /** One cycle of the walk. */
  function Step(w: Walk, c: Cycle): Walk {
    var v := w.(tried := w.tried + [w.current]);
    var es := Events(c, w.current);
    var n := Stop(v, es, c.answers, 0);
    StopIsFirst(v, es, c.answers, 0);
    var u := v.(out := w.out + es[..n]);
    if n < |es| then u.(current := Answer(es[n], c.answers, n).value)
    else if c.raised.None? then u.(outcome := Returned)
    else if NoPayload(es) && Usable(v, c.raised.value) then u.(current := c.raised.value.value)
    else u.(outcome := RaisedOut)
  }

  /** A whole turn: the walk restarts on the answer at the first event that moves it on, having forwarded what came before. */
  predicate Restarted(w: Walk, c: Cycle, es: seq<Event>, j: nat, next: Walk)
    requires j < |es|
  {
    && MovesOn(w.current, w.tried, es, c.answers, j) && (forall i :: 0 <= i < j ==> !MovesOn(w.current, w.tried, es, c.answers, i))
    && next == Walk(c.answers[j].value, w.tried + [w.current], w.out + es[..j], Walking)
  }

  /** No event moves it on: everything is forwarded, and the walk returns, or the exception decides. */
  predicate RanThrough(w: Walk, c: Cycle, es: seq<Event>, next: Walk) {
    var quiet := forall i :: 0 <= i < |es| && es[i].Forward? ==> !es[i].chunk.Text? && !es[i].chunk.ToolStart? && !es[i].chunk.ToolEnd?;
    && (forall i :: 0 <= i < |es| ==> !MovesOn(w.current, w.tried, es, c.answers, i))
    && next.out == w.out + es && next.tried == w.tried + [w.current]
    && match c.raised
       case None => next.outcome.Returned? && next.current == w.current
       case Some(answer) =>
         if quiet && answer.Some? && answer.value != w.current && answer.value !in w.tried then
           next.outcome.Walking? && next.current == answer.value
         else
           next.outcome.RaisedOut? && next.current == w.current
  }

  lemma TurnIs(w: Walk, c: Cycle)
    requires w.outcome.Walking?
    ensures var es, next := Events(c, w.current), Step(w, c);
      RanThrough(w, c, es, next) || exists j :: 0 <= j < |es| && Restarted(w, c, es, j, next)
  {
    var es, v := Events(c, w.current), w.(tried := w.tried + [w.current]);
    var n := Stop(v, es, c.answers, 0);
    StopIsFirst(v, es, c.answers, 0);
    forall j | 0 <= j < |es| ensures MovesOn(w.current, w.tried, es, c.answers, j) <==> MovesOn(v.current, v.tried, es, c.answers, j) {
    }
    if n < |es| {
      MovesOnIff(v, es, c.answers, n);
      assert Restarted(w, c, es, n, Step(w, c));
    } else {
      assert es[..n] == es;
    }
  }

  function WalkFrom(w: Walk, cycles: seq<Cycle>): Walk
    decreases |cycles|
  {
    if cycles == [] || !w.outcome.Walking? then w else WalkFrom(Step(w, cycles[0]), cycles[1..])
  }

  // ---------------------------------------------------------------- what every step keeps

  predicate Distinct(s: seq<Config>) { forall i, j :: 0 <= i < j < |s| ==> s[i] != s[j] }

  predicate Inv(w: Walk) {
    && Distinct(w.tried)
    && (w.outcome.Walking? ==> w.current !in w.tried && NoPayload(w.out) && NotDone(w.out))
    && (forall i :: 0 <= i < |w.out| && w.out[i].CycleDone? ==> i == |w.out| - 1)
    && (forall i, j :: 0 <= i < |w.out| && 0 <= j < |w.out| && WorkEvent(w.out[i]) && WorkEvent(w.out[j])
          ==> w.out[i].config == w.out[j].config)
  }

  lemma CycleShape(c: Cycle, current: Config, es: seq<Event>)
    requires es == Events(c, current)
    ensures forall i :: 0 <= i < |es| && es[i].CycleDone? ==> i == |es| - 1 && c.raised.None?
    ensures forall i, j :: 0 <= i < |es| && 0 <= j < |es| && WorkEvent(es[i]) && WorkEvent(es[j]) ==> es[i].config == es[j].config
  {
    var p := ParamsFor(c, current);
    OneCycleDone(p, c.script);
    RunKeeps(p, StreamCycle.Initial(p), c.script);
    forall i, j | 0 <= i < |es| && 0 <= j < |es| && WorkEvent(es[i]) && WorkEvent(es[j]) ensures es[i].config == es[j].config {
      WorkFromOneModel(p, c.script, i, j);
    }
  }

  /** A quiet stretch followed by part of one cycle still speaks with one voice. */
  lemma Joined(before: seq<Event>, es: seq<Event>)
    requires NoPayload(before) && NotDone(before)
    requires forall i :: 0 <= i < |es| && es[i].CycleDone? ==> i == |es| - 1
    requires forall i, j :: 0 <= i < |es| && 0 <= j < |es| && WorkEvent(es[i]) && WorkEvent(es[j]) ==> es[i].config == es[j].config
    ensures var out := before + es;
      && (forall i :: 0 <= i < |out| && out[i].CycleDone? ==> i == |out| - 1)
      && (forall i, j :: 0 <= i < |out| && 0 <= j < |out| && WorkEvent(out[i]) && WorkEvent(out[j]) ==> out[i].config == out[j].config)
      && (NotDone(es) ==> NotDone(out))
  {
    var out := before + es;
    assert forall i :: 0 <= i < |before| ==> out[i] == before[i];
    assert forall i :: |before| <= i < |out| ==> out[i] == es[i - |before|];
    assert forall i :: 0 <= i < |before| ==> !WorkEvent(out[i]);
  }

  lemma StepKeeps(w: Walk, c: Cycle)
    requires Inv(w) && w.outcome.Walking?
    ensures Inv(Step(w, c)) && Step(w, c).tried == w.tried + [w.current]
  {
    var es := Events(c, w.current);
    CycleShape(c, w.current, es);
    var v := w.(tried := w.tried + [w.current]);
    var n := Stop(v, es, c.answers, 0);
    StopIsFirst(v, es, c.answers, 0);
    Joined(w.out, es[..n]);
  }

  lemma {:induction false} WalkKeeps(w: Walk, cycles: seq<Cycle>)
    requires Inv(w)
    ensures Inv(WalkFrom(w, cycles))
    decreases |cycles|
  {
    if cycles != [] && w.outcome.Walking? {
      StepKeeps(w, cycles[0]);
      WalkKeeps(Step(w, cycles[0]), cycles[1..]);
    }
  }

  /**
   Across the walk and all its cycles: every piece of work delivered comes from one model
   configuration, at most one cycle_done is delivered, and it is the last chunk.
   */
  lemma WalkDeliversOneAnswer(active: Config, cycles: seq<Cycle>)
    ensures var out := WalkFrom(Start(active), cycles).out;
      && (forall i :: 0 <= i < |out| && out[i].CycleDone? ==> i == |out| - 1)
      && (forall i, j :: 0 <= i < |out| && 0 <= j < |out| && WorkEvent(out[i]) && WorkEvent(out[j])
            ==> out[i].config == out[j].config)
  {
    WalkKeeps(Start(active), cycles);
  }

  // ---------------------------------------------------------------- termination

  /** The resolver only ever names configurations of a finite chain. */
  predicate FromChain(c: Cycle, chain: set<Config>) {
    && (forall i :: 0 <= i < |c.answers| && c.answers[i].Some? ==> c.answers[i].value in chain)
    && (c.raised.Some? && c.raised.value.Some? ==> c.raised.value.value in chain)
  }

  predicate Within(w: Walk, pool: set<Config>) {
    w.current in pool && forall i :: 0 <= i < |w.tried| ==> w.tried[i] in pool
  }

  lemma {:induction false} WalkWithin(w: Walk, cycles: seq<Cycle>, pool: set<Config>)
    requires Inv(w) && Within(w, pool) && forall i :: 0 <= i < |cycles| ==> FromChain(cycles[i], pool)
    ensures Within(WalkFrom(w, cycles), pool)
    ensures |WalkFrom(w, cycles).tried| <= |w.tried| + |cycles|
    ensures WalkFrom(w, cycles).outcome.Walking? ==> |WalkFrom(w, cycles).tried| == |w.tried| + |cycles|
    decreases |cycles|
  {
    if cycles != [] && w.outcome.Walking? {
      StepKeeps(w, cycles[0]);
      var v := w.(tried := w.tried + [w.current]);
      StopIsFirst(v, Events(cycles[0], w.current), cycles[0].answers, 0);
      WalkWithin(Step(w, cycles[0]), cycles[1..], pool);
    }
  }

  lemma {:induction false} DistinctFits(s: seq<Config>, pool: set<Config>)
    requires Distinct(s) && forall i :: 0 <= i < |s| ==> s[i] in pool
    ensures |s| <= |pool|
  {
    if s != [] {
      var last := s[|s| - 1];
      DistinctFits(s[..|s| - 1], pool - {last});
    }
  }

  /** The walk tries pairwise different models, each from the chain or the one it began with, so it ends. */
  lemma WalkEnds(active: Config, cycles: seq<Cycle>, chain: set<Config>)
    requires forall i :: 0 <= i < |cycles| ==> FromChain(cycles[i], chain)
    ensures var w := WalkFrom(Start(active), cycles);
      && Distinct(w.tried) && |w.tried| <= |chain + {active}|
      && (forall i :: 0 <= i < |w.tried| ==> w.tried[i] in chain + {active})
      && (|cycles| >= |chain + {active}| ==> !w.outcome.Walking?)
  {
    var pool := chain + {active};
    var w := WalkFrom(Start(active), cycles);
    WalkKeeps(Start(active), cycles);
    WalkWithin(Start(active), cycles, pool);
    DistinctFits(w.tried, pool);
    if w.outcome.Walking? {
      DistinctFits(w.tried + [w.current], pool);
    }
  }

  // ---------------------------------------------------------------- the loops themselves

  /** The `async for` over one cycle's events: yield until the walk moves on or they end. */
  method ForwardEvents(w: Walk, es: seq<Event>, answers: seq<Option<Config>>)
    returns (out: seq<Event>, next: Option<Config>, emittedPayload: bool)
    ensures var n := Stop(w, es, answers, 0);
      && n <= |es| && out == w.out + es[..n]
      && (emittedPayload <==> !NoPayload(es[..n]))
      && next == if n < |es| then Answer(es[n], answers, n) else None
    ensures next.Some? <==> Stop(w, es, answers, 0) < |es|
  {
    out, next, emittedPayload := w.out, None, false;
    StopIsFirst(w, es, answers, 0);
    var i := 0;
    while i < |es|
      invariant 0 <= i <= |es|
      invariant Stop(w, es, answers, 0) == Stop(w, es, answers, i)
      invariant out == w.out + es[..i]
      invariant emittedPayload <==> !NoPayload(es[..i])
    {
      var answer := Answer(es[i], answers, i);
      if !emittedPayload && Usable(w, answer) {
        next := answer;
        return;
      }
      PayloadGrows(es, i);
      if Payload(es[i]) {
        emittedPayload := true;
      }
      out := out + [es[i]];
      i := i + 1;
    }
  }

  lemma PayloadGrows(es: seq<Event>, i: nat)
    requires i < |es|
    ensures es[..i + 1] == es[..i] + [es[i]]
    ensures NoPayload(es[..i + 1]) <==> NoPayload(es[..i]) && !Payload(es[i])
  {
    var longer := es[..i + 1];
    assert longer[i] == es[i] && forall k :: 0 <= k < i ==> es[..i][k] == longer[k];
  }

  /** The events a cycle gets out before it finishes or raises. */
  method StreamEvents(c: Cycle, current: Config) returns (es: seq<Event>)
    ensures es == Events(c, current)
  {
    var l;
    l, es := RunStreamingCycle(ParamsFor(c, current), c.script);
    if c.raised.Some? {
      es := if c.cut < |l.events| then l.events[..c.cut] else l.events;
    }
  }

  /** One turn of the `while True`, exception handler included. */
  method RunCycle(w0: Walk, c: Cycle) returns (w: Walk)
    ensures w == Step(w0, c)
  {
    w := w0.(tried := w0.tried + [w0.current]);
    var es := StreamEvents(c, w.current);
    var out, next, emittedPayload := ForwardEvents(w, es, c.answers);
    StopIsFirst(w, es, c.answers, 0);
    assert es[..|es|] == es;
    if next.Some? {
      w := w.(out := out, current := next.value);
    } else if c.raised.None? {
      w := w.(out := out, outcome := Returned);
    } else if !emittedPayload && Usable(w, c.raised.value) {
      w := w.(out := out, current := c.raised.value.value);
    } else {
      w := w.(out := out, outcome := RaisedOut);
    }
  }

  method RunChatStreamWithFallback(active: Config, cycles: seq<Cycle>) returns (w: Walk)
    ensures w == WalkFrom(Start(active), cycles)
  {
    w := Start(active);
    var k := 0;
    while k < |cycles| && w.outcome.Walking?
      invariant k <= |cycles|
      invariant WalkFrom(Start(active), cycles) == WalkFrom(w, cycles[k..])
      decreases |cycles| - k
    {
      WalkUnfolds(w, cycles, k);
      w := RunCycle(w, cycles[k]);
      k := k + 1;
    }
  }

  lemma WalkUnfolds(w: Walk, cycles: seq<Cycle>, k: nat)
    requires k < |cycles| && w.outcome.Walking?
    ensures WalkFrom(w, cycles[k..]) == WalkFrom(Step(w, cycles[k]), cycles[k + 1..])
  {
    assert cycles[k..][1..] == cycles[k + 1..];
  }
}
