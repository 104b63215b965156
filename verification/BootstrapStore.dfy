/** The bootstrap files and record of one anima, and the operations that move and write them. */
module BootstrapStore {
  import opened Options
  import opened Bootstrap

  class Files {
    var present: bool
    var bootstrap: bool
    var sheet: bool
    var artifacts: set<Artifact>
    var identity: bool
    var injection: bool
    var pending: nat
    var saved: Record

    ghost function Value(): World
      reads this
    {
      World(Dir(present, bootstrap, sheet, artifacts, identity, injection, pending), saved)
    }

    constructor (w: World)
      ensures Value() == w
    {
      present, bootstrap, sheet, artifacts := w.dir.present, w.dir.bootstrap, w.dir.sheet, w.dir.artifacts;
      identity, injection, pending, saved := w.dir.identity, w.dir.injection, w.dir.pending, w.saved;
    }

    method WriteBootstrapState(r: Record)
      modifies this
      ensures Value() == Write(old(Value()), r)
    {
      present := true;
      saved := r;
    }

    /** The artifacts that are there, in a fixed order. */
    method ListArtifacts() returns (errors: seq<Problem>)
      ensures errors == ArtifactProblems(artifacts) && (errors == [] <==> artifacts == {})
    {
      errors := [];
      var names := [AutoResolved, FailedRun];
      for i := 0 to |names|
        invariant errors == if i == 0 then [] else if i == 1 then ArtifactProblems(artifacts * {AutoResolved}) else ArtifactProblems(artifacts)
      {
        if names[i] in artifacts { errors := errors + [Unexpected(names[i])]; }
      }
      ArtifactsListed(artifacts);
    }

    method GetBootstrapStatus() returns (r: Record)
      ensures r == Derive(Value())
    {
      if !present { return Base(Completed, NoMode, DirMissing, [], saved.retries); }
      var errors := ListArtifacts();
      if errors != [] {
        return Base(NeedsRepair, saved.mode, ArtifactRequiresRepair, errors, saved.retries);
      }
      if saved.state.Running? || saved.state.Failed? || saved.state.NeedsRepair? {
        return saved;
      }
      r := Base(Completed, NoMode, NoArtifacts, [], saved.retries);
      if bootstrap {
        if sheet {
          r := Base(PendingUserInput, CharacterSheet, SheetReady, [], saved.retries);
        } else if saved.state.PendingUserInput? && saved.mode.Interactive? {
          r := Base(PendingUserInput, Interactive, InProgress, [], saved.retries);
        } else if !identity {
          r := Base(PendingUserInput, Interactive, IdentityUndefinedNoSheet, [], saved.retries);
        } else if !injection {
          r := Base(NeedsRepair, NoMode, InjectionUndefinedWithBootstrap, [InjectionUndefined], saved.retries);
        } else {
          r := Base(NeedsRepair, NoMode, LeftAfterDefinition, [BootstrapLeft], saved.retries);
        }
      } else if saved.state.Completed? {
        var reason := if saved.reason.NoReason? then PlainCompleted else saved.reason;
        r := Base(Completed, saved.mode, reason, [], saved.retries).(completed := saved.completed);
      } else if saved.state.PendingUserInput? {
        var mode := if saved.mode.NoMode? then Interactive else saved.mode;
        if identity && injection {
          r := Base(Completed, mode, InteractiveCompleted, [], saved.retries);
        } else if identity {
          r := Base(NeedsRepair, mode, InteractiveIncomplete, [InjectionUndefined], saved.retries);
        } else {
          var missing := [BootstrapMissing, IdentityUndefined];
          if !injection {
            missing := missing + [InjectionUndefined];
          }
          r := Base(NeedsRepair, mode, PromptMissing, missing, saved.retries);
        }
      }
    }

    method InitializeBootstrapState()
      modifies this
      ensures Value() == Next(old(Value()), Initialize)
    {
      var status := GetBootstrapStatus();
      WriteBootstrapState(status);
    }

    method MarkBootstrapRunning(mode: Mode, at: int)
      modifies this
      ensures Value() == Next(old(Value()), MarkRunning(mode, at))
    {
      WriteBootstrapState(Base(Running, mode, BackgroundRunning, [], saved.retries).(started := Some(at)));
    }

    method MarkBootstrapFailed(error: nat, why: Reason)
      modifies this
      ensures Value() == Next(old(Value()), MarkFailed(error, why))
    {
      WriteBootstrapState(Base(Failed, ModeOr(saved.mode, Background), why, [], saved.retries + 1)
                          .(started := saved.started, lastError := Some(error)));
    }

    /** What validation finds wrong with the files, in the order it looks. */
    method ValidateBootstrap() returns (errors: seq<Problem>)
      ensures errors == ValidationErrors(Value().dir)
    {
      errors := [];
      if !identity { errors := errors + [IdentityUndefined]; }
      if !injection { errors := errors + [InjectionUndefined]; }
      var unexpected := ListArtifacts();
      errors := errors + unexpected;
      if sheet { errors := errors + [SheetUnprocessed]; }
      for k := 0 to pending
        invariant errors + seq(pending - k, (j: nat) => PendingTask(k + j)) == ValidationErrors(Value().dir)
      {
        assert seq(pending - k, (j: nat) => PendingTask(k + j)) == [PendingTask(k)] + seq(pending - k - 1, (j: nat) => PendingTask(k + 1 + j));
        errors := errors + [PendingTask(k)];
      }
    }

    method FinalizeBootstrapRun(at: int)
      modifies this
      ensures Value() == Next(old(Value()), Finalize(at))
    {
      var errors := ValidateBootstrap();
      if errors != [] {
        WriteBootstrapState(Base(NeedsRepair, ModeOr(saved.mode, Background), ValidationFailed, errors, saved.retries));
        return;
      }
      var reason := ValidationPassed;
      if bootstrap {
        bootstrap := false;
        reason := BootstrapArchived;
      }
      WriteBootstrapState(Base(Completed, NoMode, reason, [], saved.retries).(completed := Some(at)));
    }

    /** The first artifact takes the place of a missing bootstrap file, the others are archived. */
    method RestoreArtifacts()
      modifies `bootstrap, `artifacts
      ensures artifacts == {} && bootstrap == (old(bootstrap) || old(artifacts) != {})
    {
      var restored := false;
      var names := [AutoResolved, FailedRun];
      for i := 0 to |names|
        invariant artifacts == old(artifacts) - set j | 0 <= j < i :: names[j]
        invariant bootstrap == (old(bootstrap) || exists j :: 0 <= j < i && names[j] in old(artifacts))
        invariant restored ==> bootstrap
      {
        if names[i] in artifacts {
          artifacts := artifacts - {names[i]};
          if !bootstrap && !restored {
            bootstrap := true;
            restored := true;
          }
        }
      }
      assert names[0] == AutoResolved && names[1] == FailedRun;
      assert forall a :: a in old(artifacts) ==> a == names[0] || a == names[1];
    }

    method RepairBootstrapRetry() returns (r: Record)
      modifies this
      ensures Value() == Next(old(Value()), RepairRetry) && r == Derive(Value())
    {
      present := true;
      RestoreArtifacts();
      pending := 0;
      WriteBootstrapState(Base(PendingUserInput, if sheet then CharacterSheet else Interactive, RetryPrepared, [], 0));
      r := GetBootstrapStatus();
    }

    method RepairBootstrapComplete(at: int) returns (r: Option<Record>)
      modifies this
      ensures Value() == Next(old(Value()), RepairComplete(at))
      ensures r == if old(present) then Some(Derive(Value())) else None
    {
      if !present { return None; }
      var errors := [];
      if !identity { errors := errors + [IdentityUndefined]; }
      if !injection { errors := errors + [InjectionUndefined]; }
      if errors != [] {
        WriteBootstrapState(Base(NeedsRepair, NoMode, CompleteRequiresIdentity, errors, saved.retries));
      } else {
        bootstrap, artifacts, sheet, pending := false, {}, false, 0;
        WriteBootstrapState(Base(Completed, Repaired, CompletedAfterRepair, [], 0).(completed := Some(at)));
      }
      var status := GetBootstrapStatus();
      r := Some(status);
    }
  }
}
