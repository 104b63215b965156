/**
 The bootstrap lifecycle of an anima: a status derived from the files in its directory and from a
 saved record, and the operations that write that record and move the files.
 */
module Bootstrap {
  import opened Options

  datatype Artifact = AutoResolved | FailedRun

  /** What the derivation can see of the directory. `pending` counts queued bootstrap tasks. */
  datatype Dir = Dir(
    present: bool, bootstrap: bool, sheet: bool, artifacts: set<Artifact>, identity: bool, injection: bool, pending: nat)

  /** Unknown stands for a missing record and for any state the program does not know. */
  datatype State = PendingUserInput | Running | Completed | Failed | NeedsRepair | Unknown

  datatype Mode = NoMode | CharacterSheet | Interactive | Background | Repaired | OtherMode(m: nat)

  datatype Reason =
    | NoReason | DirMissing | ArtifactRequiresRepair | SheetReady | InProgress | IdentityUndefinedNoSheet
    | InjectionUndefinedWithBootstrap | LeftAfterDefinition | PlainCompleted | InteractiveCompleted
    | InteractiveIncomplete | PromptMissing | NoArtifacts | BackgroundRunning | ValidationPassed | ValidationFailed
    | BootstrapArchived | RetryPrepared | CompleteRequiresIdentity | CompletedAfterRepair | OtherReason(r: nat)

  datatype Problem =
    | IdentityUndefined | InjectionUndefined | Unexpected(a: Artifact) | SheetUnprocessed | PendingTask(k: nat)
    | BootstrapLeft | BootstrapMissing

  datatype Record = Record(
    state: State, mode: Mode, reason: Reason, started: Option<int>, completed: Option<int>,
    lastError: Option<nat>, errors: seq<Problem>, retries: int)

  datatype World = World(dir: Dir, saved: Record)

  const NOTHING := Record(Unknown, NoMode, NoReason, None, None, None, [], 0)
  const GONE := Dir(false, false, false, {}, false, false, 0)

  /** A directory that does not exist holds nothing, the record included. */
  predicate WellFormed(w: World) { w.dir.present || (w.dir == GONE && w.saved == NOTHING) }

  function Base(state: State, mode: Mode, reason: Reason, errors: seq<Problem>, retries: int): Record {
    Record(state, mode, reason, None, None, None, errors, retries)
  }

  function ModeOr(m: Mode, other: Mode): Mode { if m.NoMode? then other else m }

  // ---------------------------------------------------------------- the derived status

  predicate Halted(s: State) { s.Running? || s.Failed? || s.NeedsRepair? }

  function UndefinedFiles(d: Dir): seq<Problem> {
    (if d.identity then [] else [IdentityUndefined]) + (if d.injection then [] else [InjectionUndefined])
  }

  function ArtifactProblems(artifacts: set<Artifact>): seq<Problem> {
    (if AutoResolved in artifacts then [Unexpected(AutoResolved)] else [])
    + (if FailedRun in artifacts then [Unexpected(FailedRun)] else [])
  }

  function WithBootstrap(d: Dir, p: Record): Record {
    if d.sheet then Base(PendingUserInput, CharacterSheet, SheetReady, [], p.retries)
    else if p.state.PendingUserInput? && p.mode.Interactive? then Base(PendingUserInput, Interactive, InProgress, [], p.retries)
    else if !d.identity then Base(PendingUserInput, Interactive, IdentityUndefinedNoSheet, [], p.retries)
    else if !d.injection then Base(NeedsRepair, NoMode, InjectionUndefinedWithBootstrap, [InjectionUndefined], p.retries)
    else Base(NeedsRepair, NoMode, LeftAfterDefinition, [BootstrapLeft], p.retries)
  }

  function WithoutBootstrap(d: Dir, p: Record): Record {
    match p.state
    case Completed =>
      Base(Completed, p.mode, if p.reason.NoReason? then PlainCompleted else p.reason, [], p.retries).(completed := p.completed)
    case PendingUserInput =>
      var mode := ModeOr(p.mode, Interactive);
      if d.identity && d.injection then Base(Completed, mode, InteractiveCompleted, [], p.retries)
      else if d.identity then Base(NeedsRepair, mode, InteractiveIncomplete, [InjectionUndefined], p.retries)
      else Base(NeedsRepair, mode, PromptMissing, [BootstrapMissing] + UndefinedFiles(d), p.retries)
    case _ => Base(Completed, NoMode, NoArtifacts, [], p.retries)
  }

  function Derive(w: World): Record {
    var d, p := w.dir, w.saved;
    if !d.present then Base(Completed, NoMode, DirMissing, [], p.retries)
    else if d.artifacts != {} then Base(NeedsRepair, p.mode, ArtifactRequiresRepair, ArtifactProblems(d.artifacts), p.retries)
    else if Halted(p.state) then p
    else if d.bootstrap then WithBootstrap(d, p)
    else WithoutBootstrap(d, p)
  }

  /** The three calls to action, and whether bootstrapping is over. */
  predicate NeedsUserInput(w: World) {
    Derive(w).state.PendingUserInput? && w.dir.bootstrap && !w.dir.sheet && w.dir.artifacts == {}
  }

  predicate OffersBackground(w: World) {
    w.dir.bootstrap && w.dir.sheet && !Halted(Derive(w).state) && w.dir.artifacts == {}
  }

  predicate AsksForRepair(w: World) { Derive(w).state.NeedsRepair? }

  /** At most one thing is asked for at a time, and a completed anima is asked for nothing. */
  lemma OneCallToAction(w: World)
    requires WellFormed(w)
    ensures !(NeedsUserInput(w) && OffersBackground(w)) && !(AsksForRepair(w) && (NeedsUserInput(w) || OffersBackground(w)))
    ensures Derive(w).state.Completed? ==> !NeedsUserInput(w) && !OffersBackground(w) && !AsksForRepair(w)
    ensures Derive(w).state.PendingUserInput? ==> NeedsUserInput(w) || OffersBackground(w)
    ensures !Derive(w).state.Unknown?
  {
  }

  /** What the record may be overruled by: nothing left over from a failed run, and no run or repair going on. */
  predicate Open(w: World) {
    w.dir.present && w.dir.artifacts == {} && w.saved.state in {PendingUserInput, Completed, Unknown}
  }

  /** Exactly which files and records give which state. */
  lemma StatusExactly(w: World)
    ensures Derive(w).state.Completed? <==>
      !w.dir.present || (Open(w) && !w.dir.bootstrap && (w.saved.state.PendingUserInput? ==> w.dir.identity && w.dir.injection))
    ensures Derive(w).state.PendingUserInput? <==>
      Open(w) && w.dir.bootstrap && (w.dir.sheet || !w.dir.identity || (w.saved.state.PendingUserInput? && w.saved.mode.Interactive?))
    ensures Derive(w).state.Running? <==> w.dir.present && w.dir.artifacts == {} && w.saved.state.Running?
    ensures Derive(w).state.Failed? <==> w.dir.present && w.dir.artifacts == {} && w.saved.state.Failed?
    ensures Derive(w).retries == w.saved.retries
  {
  }

  /** A repair that is not just on record has its reasons in the files: they are listed completely, and each is true. */
  lemma ErrorsTellWhy(w: World)
    requires Derive(w).state.NeedsRepair? && !w.saved.state.NeedsRepair?
    ensures Derive(w).errors != []
    ensures forall a :: Unexpected(a) in Derive(w).errors <==> a in w.dir.artifacts
    ensures w.dir.artifacts == {} ==>
      && (InjectionUndefined in Derive(w).errors <==> !w.dir.injection)
      && (IdentityUndefined in Derive(w).errors <==> !w.dir.identity)
      && (BootstrapMissing in Derive(w).errors <==> !w.dir.bootstrap && !w.dir.identity)
      && (BootstrapLeft in Derive(w).errors <==> w.dir.bootstrap && w.dir.injection)
  {
    ArtifactsListed(w.dir.artifacts);
    ArtifactsNamed(w.dir.artifacts);
  }

  /** A completed or pending status names no error, and says whether a sheet or a talk with the user is to be had. */
  lemma PendingMode(w: World)
    requires Derive(w).state.PendingUserInput?
    ensures Derive(w).errors == [] && (Derive(w).mode == CharacterSheet <==> w.dir.sheet) && (Derive(w).mode == Interactive <==> !w.dir.sheet)
  {
  }

  // ---------------------------------------------------------------- operations

  datatype Event =
    | Initialize
    | MarkRunning(mode: Mode, at: int)
    | MarkFailed(error: nat, why: Reason)
    | Finalize(at: int)
    | RepairRetry
    | RepairComplete(at: int)
    | NewBootstrap          // a bootstrap file is put into the directory
    | Change(dir: Dir)      // any other outside change to the files
    | Delete

  predicate Enabled(w: World, e: Event) {
    e.Change? ==> w.dir.present && e.dir.present && (e.dir.bootstrap ==> w.dir.bootstrap)
  }

  /** Writing the record creates the directory when it is missing. */
  function Write(w: World, r: Record): World { World(w.dir.(present := true), r) }

  function PendingProblems(n: nat): seq<Problem> { seq(n, (k: nat) => PendingTask(k)) }

  function ValidationErrors(d: Dir): seq<Problem> {
    UndefinedFiles(d) + ArtifactProblems(d.artifacts) + (if d.sheet then [SheetUnprocessed] else []) + PendingProblems(d.pending)
  }

  function Finalized(w: World, at: int): World {
    var errors := ValidationErrors(w.dir);
    if errors != [] then
      Write(w, Base(NeedsRepair, ModeOr(w.saved.mode, Background), ValidationFailed, errors, w.saved.retries))
    else
      var reason := if w.dir.bootstrap then BootstrapArchived else ValidationPassed;
      Write(w.(dir := w.dir.(bootstrap := false)), Base(Completed, NoMode, reason, [], w.saved.retries).(completed := Some(at)))
  }

  /** The first artifact takes the place of a missing bootstrap file, all others are archived. */
  function Retried(w: World): World {
    var d := w.dir.(present := true, bootstrap := w.dir.bootstrap || w.dir.artifacts != {}, artifacts := {}, pending := 0);
    World(d, Base(PendingUserInput, if d.sheet then CharacterSheet else Interactive, RetryPrepared, [], 0))
  }

  function MarkedComplete(w: World, at: int): World {
    if !w.dir.present then w    // raises: there is no such anima
    else if UndefinedFiles(w.dir) != [] then
      Write(w, Base(NeedsRepair, NoMode, CompleteRequiresIdentity, UndefinedFiles(w.dir), w.saved.retries))
    else
      World(w.dir.(bootstrap := false, artifacts := {}, sheet := false, pending := 0),
            Base(Completed, Repaired, CompletedAfterRepair, [], 0).(completed := Some(at)))
  }

  function Next(w: World, e: Event): World {
    match e
    case Initialize => Write(w, Derive(w))
    case MarkRunning(mode, at) => Write(w, Base(Running, mode, BackgroundRunning, [], w.saved.retries).(started := Some(at)))
    case MarkFailed(error, why) =>
      Write(w, Base(Failed, ModeOr(w.saved.mode, Background), why, [], w.saved.retries + 1)
               .(started := w.saved.started, lastError := Some(error)))
    case Finalize(at) => Finalized(w, at)
    case RepairRetry => Retried(w)
    case RepairComplete(at) => MarkedComplete(w, at)
    case NewBootstrap => World(w.dir.(present := true, bootstrap := true), w.saved)
    case Change(dir) => World(dir, w.saved)
    case Delete => World(GONE, NOTHING)
  }

  predicate Legal(w: World, run: seq<Event>)
    decreases |run|
  {
    run == [] || (Enabled(w, run[0]) && Legal(Next(w, run[0]), run[1..]))
  }

  function Exec(w: World, run: seq<Event>): World
    requires Legal(w, run)
    decreases |run|
  {
    if run == [] then w else Exec(Next(w, run[0]), run[1..])
  }

  // ---------------------------------------------------------------- deriving, writing, deriving again

  /** An interactive bootstrap that is derived for the first time. */
  predicate FirstInteractive(w: World) {
    && w.dir.present && w.dir.artifacts == {} && w.dir.bootstrap && !w.dir.sheet && !w.dir.identity
    && !Halted(w.saved.state) && !(w.saved.state.PendingUserInput? && w.saved.mode.Interactive?)
  }

  /** Writing the derived status changes no derived state and no call to action, and no field except in one case. */
  lemma DeriveWriteDerive(w: World)
    requires WellFormed(w)
    ensures Derive(Next(w, Initialize)).state == Derive(w).state
    ensures Derive(Next(w, Initialize)) == Derive(w) <==> !FirstInteractive(w)
    ensures OffersBackground(Next(w, Initialize)) == OffersBackground(w)
    ensures NeedsUserInput(Next(w, Initialize)) == NeedsUserInput(w)
  {
  }

  // ---------------------------------------------------------------- background bootstrap runs once

  predicate Fenced(w: World) { Halted(w.saved.state) || !w.dir.bootstrap }

  lemma FenceStep(w: World, e: Event)
    requires Fenced(w) && Enabled(w, e) && !e.RepairRetry? && !e.NewBootstrap? && WellFormed(w)
    ensures Fenced(Next(w, e)) && !OffersBackground(Next(w, e)) && WellFormed(Next(w, e))
  {
  }

  predicate Untouched(run: seq<Event>) { forall i :: 0 <= i < |run| ==> !run[i].RepairRetry? && !run[i].NewBootstrap? }

  lemma {:induction false} FenceRun(w: World, run: seq<Event>)
    requires Fenced(w) && WellFormed(w) && Legal(w, run) && Untouched(run)
    ensures !OffersBackground(Exec(w, run))
    decreases |run|
  {
    if run != [] {
      FenceStep(w, run[0]);
      FenceRun(Next(w, run[0]), run[1..]);
    }
  }

  /** Once marked running, a background bootstrap is not offered again before a retry repair or a new bootstrap file. */
  lemma RunsOnce(w: World, mode: Mode, at: int, run: seq<Event>)
    requires WellFormed(w) && Legal(Next(w, MarkRunning(mode, at)), run) && Untouched(run)
    ensures !OffersBackground(Exec(Next(w, MarkRunning(mode, at)), run))
  {
    FenceRun(Next(w, MarkRunning(mode, at)), run);
  }

  // ---------------------------------------------------------------- completion lasts

  predicate Sound(d: Dir) { d.identity && d.injection && d.artifacts == {} && !d.sheet && d.pending == 0 }

  lemma ValidIffSound(d: Dir)
    ensures ValidationErrors(d) == [] <==> Sound(d)
  {
    assert |ValidationErrors(d)| ==
           |UndefinedFiles(d)| + |ArtifactProblems(d.artifacts)| + (if d.sheet then 1 else 0) + d.pending;
    ArtifactsListed(d.artifacts);
  }

  lemma ArtifactsListed(artifacts: set<Artifact>)
    ensures ArtifactProblems(artifacts) == [] <==> artifacts == {}
  {
    if artifacts != {} {
      var a :| a in artifacts;
      assert a == AutoResolved || a == FailedRun;
    }
  }

  /** Bootstrapped, with a record that reads back as it was written. */
  predicate Settled(w: World) {
    && w.dir.present && !w.dir.bootstrap && w.dir.artifacts == {}
    && w.saved.state.Completed? && !w.saved.reason.NoReason? && w.saved == Derive(w)
  }

  /** What may happen afterwards: status writes, and file changes other than a new bootstrap file or artifact. */
  predicate Quiet(run: seq<Event>) {
    forall i :: 0 <= i < |run| ==> run[i].Initialize? || (run[i].Change? && run[i].dir.artifacts == {})
  }

  lemma {:induction false} SettledRun(w: World, run: seq<Event>)
    requires Settled(w) && Legal(w, run) && Quiet(run)
    ensures Derive(Exec(w, run)) == w.saved
    decreases |run|
  {
    if run != [] { SettledRun(Next(w, run[0]), run[1..]); }
  }

  /** Finalizing reports completion exactly for a sound directory, and later derivations repeat that report. */
  lemma FinalizedLasts(w: World, at: int, run: seq<Event>)
    requires Legal(Next(w, Finalize(at)), run) && Quiet(run)
    ensures var report := Next(w, Finalize(at)).saved;
      && (report.state.Completed? <==> Sound(w.dir))
      && (report.state.Completed? ==> Derive(Exec(Next(w, Finalize(at)), run)) == report)
  {
    ValidIffSound(w.dir);
    var done := Next(w, Finalize(at));
    if Sound(w.dir) { SettledRun(done, run); }
  }

  /** The complete repair does the same whatever files were left over, if identity and injection are defined. */
  lemma RepairedLasts(w: World, at: int, run: seq<Event>)
    requires w.dir.present && Legal(Next(w, RepairComplete(at)), run) && Quiet(run)
    ensures var report := Derive(Next(w, RepairComplete(at)));
      && (report.state.Completed? <==> w.dir.identity && w.dir.injection)
      && (report.state.Completed? ==> Derive(Exec(Next(w, RepairComplete(at)), run)) == report)
  {
    var done := Next(w, RepairComplete(at));
    if w.dir.identity && w.dir.injection { SettledRun(done, run); }
  }

  // ---------------------------------------------------------------- the retry repair

  /** A retry offers the background bootstrap exactly if a bootstrap file can be had and a sheet is there. */
  lemma RetryOffers(w: World)
    ensures var t := Next(w, RepairRetry);
      && (OffersBackground(t) <==> w.dir.sheet && (w.dir.bootstrap || w.dir.artifacts != {}))
      && (NeedsUserInput(t) <==> !w.dir.sheet && (w.dir.bootstrap || w.dir.artifacts != {}))
      && t.saved.retries == 0
  {
  }

  function Failures(run: seq<Event>): nat {
    if run == [] then 0 else (if run[0].MarkFailed? then 1 else 0) + Failures(run[1..])
  }

  /** Between repairs the retry count goes up by one for every failure and by nothing else. */
  lemma {:induction false} RetriesCountFailures(w: World, run: seq<Event>)
    requires Legal(w, run)
    requires forall i :: 0 <= i < |run| ==> !run[i].RepairRetry? && !run[i].RepairComplete? && !run[i].Delete?
    ensures Exec(w, run).saved.retries == w.saved.retries + Failures(run)
    decreases |run|
  {
    if run != [] { RetriesCountFailures(Next(w, run[0]), run[1..]); }
  }

  // ---------------------------------------------------------------- what the operations leave

  /** A run that fails is on record with its mode, its start, its error and one more retry. */
  lemma FailureTells(w: World, mode: Mode, at: int, error: nat, why: Reason)
    ensures var t := Next(Next(w, MarkRunning(mode, at)), MarkFailed(error, why));
      && t.saved.state.Failed? && t.saved.started == Some(at) && t.saved.lastError == Some(error) && t.saved.reason == why
      && t.saved.mode == (if mode.NoMode? then Background else mode) && t.saved.retries == w.saved.retries + 1
      && t.dir == w.dir.(present := true)
  {
  }

  /** Finalizing a sound directory archives the bootstrap file and notes the time; otherwise the files stay and all that is wrong is listed. */
  lemma FinalizeTells(w: World, at: int)
    ensures Next(w, Finalize(at)).saved.retries == w.saved.retries
    ensures Sound(w.dir) ==>
      var t := Next(w, Finalize(at));
      t.dir == w.dir.(present := true, bootstrap := false) && t.saved.completed == Some(at) && t.saved.errors == []
    ensures !Sound(w.dir) ==>
      var t := Next(w, Finalize(at));
      && t.dir == w.dir.(present := true) && t.saved.state.NeedsRepair? && Lists(t.saved.errors, w.dir)
      && t.saved.mode == if w.saved.mode.NoMode? then Background else w.saved.mode
  {
    ValidIffSound(w.dir);
    ListsAll(w.dir);
  }

  /** What can be wrong with a directory after a bootstrap run. */
  predicate Wrong(d: Dir, x: Problem) {
    match x
    case IdentityUndefined => !d.identity
    case InjectionUndefined => !d.injection
    case Unexpected(a) => a in d.artifacts
    case SheetUnprocessed => d.sheet
    case PendingTask(k) => k < d.pending
    case _ => false
  }

  /** The errors name exactly what is wrong with the directory. */
  ghost predicate Lists(errors: seq<Problem>, d: Dir) { forall x :: x in errors <==> Wrong(d, x) }

  lemma ListsAll(d: Dir)
    ensures Lists(ValidationErrors(d), d)
  {
    ArtifactsNamed(d.artifacts);
    PendingListed(d.pending);
    forall x ensures x in ValidationErrors(d) <==> Wrong(d, x) {
      InFour(UndefinedFiles(d), ArtifactProblems(d.artifacts), if d.sheet then [SheetUnprocessed] else [], PendingProblems(d.pending), x);
    }
  }

  lemma InFour(a: seq<Problem>, b: seq<Problem>, c: seq<Problem>, d: seq<Problem>, x: Problem)
    ensures x in a + b + c + d <==> x in a || x in b || x in c || x in d
  {
  }

  lemma ArtifactsNamed(artifacts: set<Artifact>)
    ensures forall a :: Unexpected(a) in ArtifactProblems(artifacts) <==> a in artifacts
    ensures forall x :: x in ArtifactProblems(artifacts) ==> x.Unexpected?
  {
    forall a ensures Unexpected(a) in ArtifactProblems(artifacts) <==> a in artifacts { assert a == AutoResolved || a == FailedRun; }
  }

  lemma PendingListed(n: nat)
    ensures forall k: nat :: PendingTask(k) in PendingProblems(n) <==> k < n
    ensures forall x :: x in PendingProblems(n) ==> x.PendingTask?
  {
    forall k: nat ensures PendingTask(k) in PendingProblems(n) <==> k < n {
      if k < n { assert PendingProblems(n)[k] == PendingTask(k); }
    }
  }

  /** A retry leaves no artifact and no queued task, and every other file where it was. */
  lemma RetryCleans(w: World)
    ensures var t := Next(w, RepairRetry);
      t.dir == Dir(true, w.dir.bootstrap || w.dir.artifacts != {}, w.dir.sheet, {}, w.dir.identity, w.dir.injection, 0)
  {
  }

  /** A complete repair leaves nothing of the bootstrap behind, or touches no file. */
  lemma CompleteCleans(w: World, at: int)
    requires w.dir.present
    ensures w.dir.identity && w.dir.injection ==>
      var t := Next(w, RepairComplete(at));
      t.dir == Dir(true, false, false, {}, true, true, 0) && t.saved.completed == Some(at) && t.saved.retries == 0 && t.saved.mode == Repaired
    ensures !(w.dir.identity && w.dir.injection) ==>
      var t := Next(w, RepairComplete(at));
      && t.dir == w.dir && t.saved.state.NeedsRepair? && t.saved.retries == w.saved.retries
      && (IdentityUndefined in t.saved.errors <==> !w.dir.identity) && (InjectionUndefined in t.saved.errors <==> !w.dir.injection)
  {
  }
}
