/**
 The durable event spool: emitters publish one file per event, a single worker trims the oldest
 files over the size limit and delivers the rest in name order, unlinking a file after a 2xx reply.

 Every file operation is one atomic step. Emitters may publish between any two of them and the
 process may die between any two of them. The worker lock keeps a second worker away, so only the
 worker removes files.
 */
module EventSpool {

  datatype File = File(name: nat, size: nat)

  datatype Phase =
    | Idle
    | Trimming(limit: nat, listing: seq<File>, i: nat, kept: seq<File>, total: int)
    | Sending(files: seq<File>, next: nat)

  /** `gone` lists removed names in the order of removal; those not in `acked` were trimmed. */
  datatype State = State(
    phase: Phase,
    spool: map<nat, nat>,
    published: seq<nat>,
    gone: seq<nat>,
    acked: set<nat>,
    hits: multiset<nat>,    // 2xx replies, by event
    lost: multiset<nat>)    // 2xx replies after which the file stayed

  datatype Step =
    | Emit(f: File)
    | Begin(limit: nat, listing: seq<File>)
    | TrimOne(unlinks: bool)
    | TrimDone
    | Ack
    | AckLost
    | GiveUp
    | PassDone
    | Crash

  function Total(files: seq<File>): nat {
    if files == [] then 0 else files[0].size + Total(files[1..])
  }

  predicate Sorted(files: seq<File>) { forall i, j :: 0 <= i < j < |files| ==> files[i].name < files[j].name }

  /** The name-ordered listing of the directory. A file that cannot be stat'ed counts with size 0. */
  predicate IsListing(files: seq<File>, spool: map<nat, nat>) {
    && Sorted(files)
    && (forall f :: f in files ==> f.name in spool && (f.size == spool[f.name] || f.size == 0))
    && (forall n :: n in spool ==> exists i :: 0 <= i < |files| && files[i].name == n)
  }

  predicate Enabled(s: State, st: Step) {
    match st
    case Emit(f) => f.name !in s.published
    case Begin(limit, listing) => s.phase.Idle? && IsListing(listing, s.spool)
    case TrimOne(unlinks) => s.phase.Trimming? && s.phase.i < |s.phase.listing| && s.phase.total > s.phase.limit
    case TrimDone =>
      s.phase.Trimming? && s.phase.i <= |s.phase.listing| && (s.phase.total <= s.phase.limit || s.phase.i == |s.phase.listing|)
    case PassDone => s.phase.Sending? && s.phase.next >= |s.phase.files|
    case Crash => true
    case _ => s.phase.Sending? && s.phase.next < |s.phase.files|
  }

  function Next(s: State, st: Step): State
    requires Enabled(s, st)
  {
    match st
    case Emit(f) => s.(spool := s.spool[f.name := f.size], published := s.published + [f.name])
    case Begin(limit, listing) => s.(phase := Trimming(limit, listing, 0, [], Total(listing)))
    case TrimOne(unlinks) =>
      var p := s.phase;
      var f := p.listing[p.i];
      // a missing file and a failing unlink are both passed over, and stay in the returned list
      if unlinks && f.name in s.spool then
        s.(phase := p.(i := p.i + 1, total := p.total - f.size), spool := s.spool - {f.name}, gone := s.gone + [f.name])
      else s.(phase := p.(i := p.i + 1, kept := p.kept + [f]))
    case TrimDone => s.(phase := Sending(s.phase.kept + s.phase.listing[s.phase.i..], 0))
    case Ack =>
      var n := s.phase.files[s.phase.next].name;
      var t := s.(phase := s.phase.(next := s.phase.next + 1));
      // a file that is gone already counts as delivered, without a request
      if n !in s.spool then t
      else t.(spool := s.spool - {n}, gone := s.gone + [n], acked := s.acked + {n}, hits := s.hits + multiset{n})
    case AckLost =>
      var n := s.phase.files[s.phase.next].name;
      s.(phase := Idle, hits := s.hits + multiset{n}, lost := s.lost + multiset{n})
    case GiveUp => s.(phase := Idle)
    case PassDone => s.(phase := Idle)
    case Crash => s.(phase := Idle)
  }

  const EMPTY := State(Idle, map[], [], [], {}, multiset{}, multiset{})

  predicate Legal(s: State, run: seq<Step>)
    decreases |run|
  {
    run == [] || (Enabled(s, run[0]) && Legal(Next(s, run[0]), run[1..]))
  }

  function Exec(s: State, run: seq<Step>): State
    requires Legal(s, run)
    decreases |run|
  {
    if run == [] then s else Exec(Next(s, run[0]), run[1..])
  }

  lemma {:induction false} ExecAppend(s: State, run: seq<Step>, st: Step)
    requires Legal(s, run) && Enabled(Exec(s, run), st)
    ensures Legal(s, run + [st]) && Exec(s, run + [st]) == Next(Exec(s, run), st)
    decreases |run|
  {
    if run == [] {
      assert run + [st] == [st];
      assert Exec(Next(s, st), []) == Next(s, st);
    } else {
      assert (run + [st])[1..] == run[1..] + [st];
      ExecAppend(Next(s, run[0]), run[1..], st);
    }
  }

  // ---------------------------------------------------------------- what every step keeps

  predicate NoDup(names: seq<nat>) { forall i, j :: 0 <= i < j < |names| ==> names[i] != names[j] }

  ghost predicate Ledger(s: State) {
    && NoDup(s.published) && NoDup(s.gone)
    && (forall n :: n in s.published <==> n in s.spool || n in s.gone)
    && (forall n :: n in s.spool ==> n !in s.gone)
    && (forall n :: n in s.acked ==> n in s.gone)
    && s.hits == s.lost + multiset(s.acked)
  }

  /** No file trimmed so far fitted into the limit together with everything newer. */
  predicate Overfull(listing: seq<File>, i: nat, limit: nat)
    requires i <= |listing|
  {
    forall j :: 0 <= j < i ==> Total(listing[j..]) > limit
  }

  predicate PhaseOk(s: State) {
    match s.phase
    case Idle => true
    case Trimming(limit, listing, i, kept, total) =>
      && i <= |listing| && Sorted(kept + listing[i..])
      && (forall f :: f in kept + listing[i..] ==> f.name in s.spool)
      && total == Total(kept + listing[i..])
      && (kept == [] ==> Overfull(listing, i, limit))
    case Sending(files, next) =>
      && next <= |files| && Sorted(files)
      && (forall k :: 0 <= k < next ==> files[k].name in s.acked)
      && (forall k :: next <= k < |files| ==> files[k].name in s.spool)
  }

  ghost predicate Inv(s: State) { Ledger(s) && PhaseOk(s) }

  lemma {:induction false} TotalConcat(a: seq<File>, b: seq<File>)
    ensures Total(a + b) == Total(a) + Total(b)
  {
    if a == [] {
      assert a + b == b;
    } else {
      assert (a + b)[1..] == a[1..] + b;
      TotalConcat(a[1..], b);
    }
  }

  lemma RemovalKeepsLedger(s: State, n: nat, acknowledged: bool)
    requires Ledger(s) && n in s.spool
    ensures Ledger(s.(spool := s.spool - {n}, gone := s.gone + [n],
                      acked := if acknowledged then s.acked + {n} else s.acked,
                      hits := if acknowledged then s.hits + multiset{n} else s.hits))
  {
    if acknowledged { assert multiset(s.acked + {n}) == multiset(s.acked) + multiset{n}; }
  }

  lemma LedgerStep(s: State, st: Step)
    requires Inv(s) && Enabled(s, st)
    ensures Ledger(Next(s, st))
  {
    match st
    case Ack => RemovalKeepsLedger(s, s.phase.files[s.phase.next].name, true);
    case TrimOne(unlinks) =>
      NextFileIsThere(s);
      if unlinks { RemovalKeepsLedger(s, s.phase.listing[s.phase.i].name, false); }
    case AckLost =>
      var n := s.phase.files[s.phase.next].name;
      assert s.hits + multiset{n} == s.lost + multiset{n} + multiset(s.acked);
    case _ =>
  }

  /** While trimming, the next listed file is still there. */
  lemma NextFileIsThere(s: State)
    requires PhaseOk(s) && Enabled(s, TrimOne(true))
    ensures s.phase.listing[s.phase.i].name in s.spool
  {
    var p := s.phase;
    assert (p.kept + p.listing[p.i..])[|p.kept|] == p.listing[p.i];
  }

  lemma OverfullNext(listing: seq<File>, i: nat, limit: nat)
    requires i < |listing| && Overfull(listing, i, limit) && Total(listing[i..]) > limit
    ensures Overfull(listing, i + 1, limit)
  {
  }

  lemma TrimRemoves(s: State)
    requires PhaseOk(s) && Enabled(s, TrimOne(true))
    ensures PhaseOk(Next(s, TrimOne(true)))
  {
    var p := s.phase;
    var f, rest := p.listing[p.i], p.listing[p.i + 1..];
    NextFileIsThere(s);
    assert p.kept + p.listing[p.i..] == p.kept + [f] + rest by { assert p.listing[p.i..] == [f] + rest; }
    WithoutOne(p.kept, f, rest);
    var t := Next(s, TrimOne(true));
    assert t.phase == Trimming(p.limit, p.listing, p.i + 1, p.kept, p.total - f.size);
    if p.kept == [] {
      assert p.kept + p.listing[p.i..] == p.listing[p.i..];
      OverfullNext(p.listing, p.i, p.limit);
    }
  }

  lemma TrimPasses(s: State)
    requires PhaseOk(s) && Enabled(s, TrimOne(false))
    ensures PhaseOk(Next(s, TrimOne(false)))
  {
    var p := s.phase;
    assert p.listing[p.i..] == [p.listing[p.i]] + p.listing[p.i + 1..];
    assert p.kept + p.listing[p.i..] == p.kept + [p.listing[p.i]] + p.listing[p.i + 1..];
  }

  lemma WithoutOne(a: seq<File>, f: File, b: seq<File>)
    requires Sorted(a + [f] + b)
    ensures Sorted(a + b) && Total(a + b) == Total(a + [f] + b) - f.size
    ensures forall g :: g in a + b ==> g in a + [f] + b && g.name != f.name
  {
    SortedWithout(a, f, b);
    TotalConcat(a, b);
    TotalConcat(a + [f], b);
    TotalConcat(a, [f]);
    OtherNames(a, f, b, a + [f] + b);
  }

  lemma OtherNames(a: seq<File>, f: File, b: seq<File>, all: seq<File>)
    requires Sorted(all) && all == a + [f] + b
    ensures forall g :: g in a + b ==> g in all && g.name != f.name
  {
    forall g | g in a + b ensures g in all && g.name != f.name {
      var k :| 0 <= k < |a + b| && (a + b)[k] == g;
      assert g == all[if k < |a| then k else k + 1] && f == all[|a|];
    }
  }

  lemma SortedWithout(a: seq<File>, f: File, b: seq<File>)
    requires Sorted(a + [f] + b)
    ensures Sorted(a + b)
  {
    var long := a + [f] + b;
    forall i, j | 0 <= i < j < |a + b| ensures (a + b)[i].name < (a + b)[j].name {
      assert (a + b)[i] == long[if i < |a| then i else i + 1] && (a + b)[j] == long[if j < |a| then j else j + 1];
    }
  }

  lemma PhaseStep(s: State, st: Step)
    requires Inv(s) && Enabled(s, st)
    ensures PhaseOk(Next(s, st))
  {
    match st
    case TrimOne(unlinks) => if unlinks { TrimRemoves(s); } else { TrimPasses(s); }
    case Begin(limit, listing) => assert [] + listing[0..] == listing;
    case _ =>
  }

  lemma {:induction false} RunInv(s: State, run: seq<Step>)
    requires Inv(s) && Legal(s, run)
    ensures Inv(Exec(s, run))
    decreases |run|
  {
    if run != [] {
      LedgerStep(s, run[0]);
      PhaseStep(s, run[0]);
      RunInv(Next(s, run[0]), run[1..]);
    }
  }

  // ---------------------------------------------------------------- where every event ends up

  /**
   Every published event is exactly one of spooled, acknowledged and trimmed, and nothing else is.
   An acknowledged one was answered with 2xx once, plus once for every reply whose unlink was lost.
   */
  lemma EveryEventAccountedFor(run: seq<Step>, n: nat)
    requires Legal(EMPTY, run)
    ensures var s := Exec(EMPTY, run);
      var spooled, acknowledged, trimmed := n in s.spool, n in s.acked, n in s.gone && n !in s.acked;
      && (n in s.published <==> spooled || acknowledged || trimmed)
      && !(spooled && acknowledged) && !(spooled && trimmed)
      && s.hits[n] == s.lost[n] + (if acknowledged then 1 else 0)
  {
    RunInv(EMPTY, run);
  }

  /** In every reachable state the worker has acknowledged a prefix of its list; the rest is still spooled. */
  lemma PassAcknowledgesPrefix(run: seq<Step>)
    requires Legal(EMPTY, run) && Exec(EMPTY, run).phase.Sending?
    ensures var s := Exec(EMPTY, run);
      && s.phase.next <= |s.phase.files| && Sorted(s.phase.files)
      && forall k :: 0 <= k < |s.phase.files| ==>
           if k < s.phase.next then s.phase.files[k].name in s.acked else s.phase.files[k].name in s.spool
  {
    RunInv(EMPTY, run);
  }

  /** The longest tail of the listing that fits the limit. */
  predicate LongestFit(listing: seq<File>, tail: seq<File>, limit: nat) {
    exists k :: 0 <= k <= |listing| && tail == listing[k..] && Total(tail) <= limit
                && forall j :: 0 <= j < k ==> Total(listing[j..]) > limit
  }

  /** Trimming ends with the longest fitting tail, unless an unlink failed on the way. */
  lemma TrimKeepsLongestTail(run: seq<Step>)
    requires Legal(EMPTY, run) && Enabled(Exec(EMPTY, run), TrimDone)
    ensures var p := Exec(EMPTY, run).phase;
      var files := Next(Exec(EMPTY, run), TrimDone).phase.files;
      && (p.kept == [] ==> LongestFit(p.listing, files, p.limit))
      && (Total(files) <= p.limit || files == p.kept)
  {
    RunInv(EMPTY, run);
    TrimmedEnough(Exec(EMPTY, run).phase);
  }

  lemma TrimmedEnough(p: Phase)
    requires p.Trimming? && p.i <= |p.listing| && (p.total <= p.limit || p.i == |p.listing|)
    requires p.total == Total(p.kept + p.listing[p.i..]) && (p.kept == [] ==> Overfull(p.listing, p.i, p.limit))
    ensures p.kept == [] ==> LongestFit(p.listing, p.kept + p.listing[p.i..], p.limit)
    ensures p.total <= p.limit || p.kept + p.listing[p.i..] == p.kept
  {
    if p.kept == [] {
      assert p.kept + p.listing[p.i..] == p.listing[p.i..];
      assert p.i == |p.listing| ==> p.listing[p.i..] == [];
    }
    assert p.i == |p.listing| ==> p.kept + p.listing[p.i..] == p.kept;
  }

  // ---------------------------------------------------------------- order

  /** Names grow with every event, and no unlink fails while trimming. */
  predicate Orderly(s: State, run: seq<Step>)
    requires Legal(s, run)
    decreases |run|
  {
    run == [] ||
    (&& (run[0].Emit? ==> forall n :: n in s.published ==> n < run[0].f.name)
     && (run[0].TrimOne? ==> run[0].unlinks)
     && Orderly(Next(s, run[0]), run[1..]))
  }

  predicate Increasing(names: seq<nat>) { forall i, j :: 0 <= i < j < |names| ==> names[i] < names[j] }

  /** The listed files are the next ones in publication order. */
  predicate NextInLine(files: seq<File>, waiting: seq<nat>) {
    |files| <= |waiting| && forall k :: 0 <= k < |files| ==> files[k].name == waiting[k]
  }

  predicate InOrder(s: State) {
    && Increasing(s.published) && |s.gone| <= |s.published| && s.gone == s.published[..|s.gone|]
    && match s.phase
       case Idle => true
       case Trimming(_, listing, i, kept, _) =>
         kept == [] && i <= |listing| && NextInLine(listing[i..], s.published[|s.gone|..])
       case Sending(files, next) => next <= |files| && NextInLine(files[next..], s.published[|s.gone|..])
  }

  lemma TailMembers(names: seq<nat>)
    requires names != [] && Increasing(names)
    ensures Increasing(names[1..]) && forall n :: n in names[1..] <==> n in names && n != names[0]
  {
    assert names == [names[0]] + names[1..];
  }

  /** Two increasing lists of the same names are one list. */
  lemma {:induction false} SameNames(a: seq<nat>, b: seq<nat>)
    requires Increasing(a) && Increasing(b) && forall n :: n in a <==> n in b
    ensures a == b
  {
    assert b == [] || b[0] in a;
    assert a == [] || a[0] in b;
    if a != [] {
      TailMembers(a);
      TailMembers(b);
      SameNames(a[1..], b[1..]);
      assert a == [a[0]] + a[1..] && b == [b[0]] + b[1..];
    }
  }

  function Names(files: seq<File>): (names: seq<nat>)
    ensures |names| == |files| && forall i :: 0 <= i < |files| ==> names[i] == files[i].name
  {
    seq(|files|, i requires 0 <= i < |files| => files[i].name)
  }

  lemma ListedNames(files: seq<File>, spool: map<nat, nat>)
    requires IsListing(files, spool)
    ensures Increasing(Names(files)) && forall n :: n in Names(files) <==> n in spool
  {
    forall n | n in Names(files) ensures n in spool {
      var i :| 0 <= i < |files| && Names(files)[i] == n;
      assert files[i] in files;
    }
    forall n | n in spool ensures n in Names(files) {
      var i :| 0 <= i < |files| && files[i].name == n;
      assert Names(files)[i] == n;
    }
  }

  /** What is spooled is what was published after the gone names. */
  lemma SpoolIsTheRest(s: State)
    requires Ledger(s) && |s.gone| <= |s.published| && s.gone == s.published[..|s.gone|]
    ensures forall n :: n in s.spool <==> n in s.published[|s.gone|..]
  {
    var waiting := s.published[|s.gone|..];
    assert s.published == s.gone + waiting;
    forall n | n in waiting ensures n in s.spool {
      var k :| 0 <= k < |waiting| && waiting[k] == n;
      assert s.published[|s.gone| + k] == n;
      assert n in s.published && n !in s.gone;
    }
  }

  lemma BeginInOrder(s: State, listing: seq<File>)
    requires Ledger(s) && InOrder(s) && IsListing(listing, s.spool)
    ensures NextInLine(listing, s.published[|s.gone|..])
  {
    SpoolIsTheRest(s);
    ListedNames(listing, s.spool);
    SameNames(Names(listing), s.published[|s.gone|..]);
  }

  /** Removing the first file in line moves it from the waiting names to the gone ones. */
  lemma LeaveInOrder(published: seq<nat>, gone: seq<nat>, files: seq<File>, k: nat)
    requires |gone| <= |published| && gone == published[..|gone|]
    requires k < |files| && NextInLine(files[k..], published[|gone|..])
    ensures |gone| < |published| && gone + [files[k].name] == published[..|gone| + 1]
    ensures NextInLine(files[k + 1..], published[|gone| + 1..])
  {
    var fs, ps := files[k + 1..], published[|gone| + 1..];
    assert files[k..][0] == files[k] && files[k..][1..] == fs;
    assert published[|gone|..][0] == published[|gone|] && published[|gone|..][1..] == ps;
    forall j | 0 <= j < |fs| ensures fs[j].name == ps[j] {
      assert fs[j] == files[k..][j + 1] && ps[j] == published[|gone|..][j + 1];
    }
  }

  lemma TrimInOrder(s: State)
    requires InOrder(s) && Enabled(s, TrimOne(true)) && s.phase.listing[s.phase.i].name in s.spool
    ensures InOrder(Next(s, TrimOne(true)))
  {
    LeaveInOrder(s.published, s.gone, s.phase.listing, s.phase.i);
  }

  lemma AckInOrder(s: State)
    requires InOrder(s) && Enabled(s, Ack) && s.phase.files[s.phase.next].name in s.spool
    ensures InOrder(Next(s, Ack))
  {
    LeaveInOrder(s.published, s.gone, s.phase.files, s.phase.next);
  }

  lemma EmitInOrder(s: State, f: File)
    requires InOrder(s) && Enabled(s, Emit(f)) && forall n :: n in s.published ==> n < f.name
    ensures InOrder(Next(s, Emit(f)))
  {
    var longer := s.published + [f.name];
    assert longer[|s.gone|..] == s.published[|s.gone|..] + [f.name];
    assert longer[..|s.gone|] == s.published[..|s.gone|];
    forall i, j | 0 <= i < j < |longer| ensures longer[i] < longer[j] {
      assert longer[i] == s.published[i] && s.published[i] in s.published;
    }
  }

  lemma OrderStep(s: State, st: Step)
    requires Inv(s) && InOrder(s) && Enabled(s, st)
    requires st.Emit? ==> forall n :: n in s.published ==> n < st.f.name
    requires st.TrimOne? ==> st.unlinks
    ensures InOrder(Next(s, st))
  {
    match st
    case Emit(f) => EmitInOrder(s, f);
    case Begin(limit, listing) =>
      BeginInOrder(s, listing);
      assert listing[0..] == listing;
    case TrimOne(unlinks) =>
      NextFileIsThere(s);
      TrimInOrder(s);
    case TrimDone =>
      var files := s.phase.kept + s.phase.listing[s.phase.i..];
      assert files == s.phase.listing[s.phase.i..] && files[0..] == files;
    case Ack => AckInOrder(s);
    case _ =>
  }

  lemma {:induction false} RunInOrder(s: State, run: seq<Step>)
    requires Inv(s) && InOrder(s) && Legal(s, run) && Orderly(s, run)
    ensures InOrder(Exec(s, run)) && Inv(Exec(s, run))
    decreases |run|
  {
    if run != [] {
      LedgerStep(s, run[0]);
      PhaseStep(s, run[0]);
      OrderStep(s, run[0]);
      RunInOrder(Next(s, run[0]), run[1..]);
    }
  }

  /** With growing names, events leave the spool in exactly the order they were published. */
  lemma EventsLeaveInOrder(run: seq<Step>)
    requires Legal(EMPTY, run) && Orderly(EMPTY, run)
    ensures var s := Exec(EMPTY, run);
      && |s.gone| <= |s.published| && s.gone == s.published[..|s.gone|]
      && forall n :: n in s.spool <==> n in s.published[|s.gone|..]
  {
    RunInOrder(EMPTY, run);
    SpoolIsTheRest(Exec(EMPTY, run));
  }
}
