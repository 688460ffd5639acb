/** The import_batch row as the handlers and the reconciler update it in place: the guarded updates of the
    batch protocol, with what each call reports to its caller. */
module BatchRow {
  import opened Prelude
  import opened BatchProtocol

  datatype Projected = PROJECTED | NOOP

  class ImportBatchRow {
    var status: Status
    var failure: Option<Code>
    var updatedAt: nat
    ghost var materialised: nat

    ghost function View(): Batch
      reads this
    {
      Batch(status, failure, updatedAt, materialised)
    }

    method Write(to: Status, code: Option<Code>, now: nat)
      modifies this`status, this`failure, this`updatedAt
      ensures status == to && failure == code && updatedAt == now
    {
      status, failure, updatedAt := to, code, now;
    }

    /** confirmImportBatch: a batch past its confirmation is reported as it is, a failed one is resumed or
        retried only for the codes that allow it. */
    method ConfirmImportBatch(pendingHard: nat, now: nat) returns (r: Result<Status, string>)
      modifies this
      ensures View() == ConfirmBatch(old(View()), pendingHard, now)
      ensures r.Ok? ==> r.value == status
      ensures old(status) in {Committing, Committed, CommittedWithExclusions, Calculating, ReadyForReview,
                              ResultPublishing, ResultPublished} ==>
                r.Ok? && View() == old(View())
      ensures old(status) == Failed && old(failure) == Some(HardIncomplete) ==>
                if pendingHard > 0 then r == Err("HARD_INCOMPLETE_CONFIRMATION_REQUIRED") && View() == old(View())
                else r.Ok? && View() == Batch(CommittedWithExclusions, None, now, old(materialised))
      ensures old(status) == AwaitingConfirmation
              || (old(status) == Failed && old(failure) in {Some(CapacityUnavailable), Some(CapacityInsufficient)}) ==>
                r.Ok? && View() == Batch(Committing, None, now, old(materialised))
      ensures old(status) in {Draft, Uploading, Analyzing, AwaitingFiles, AwaitingMapping, Retrying, Cancelled}
              || (old(status) == Failed
                  && old(failure) !in {Some(HardIncomplete), Some(CapacityUnavailable), Some(CapacityInsufficient)}) ==>
                r == Err("IMPORT_BATCH_NOT_READY") && View() == old(View())
    {
      if status.Committing? || PostCommit(status) { return Ok(status); }
      if status.Failed? && failure == Some(HardIncomplete) {
        if pendingHard > 0 { return Err("HARD_INCOMPLETE_CONFIRMATION_REQUIRED"); }
        Write(CommittedWithExclusions, None, now);
        return Ok(CommittedWithExclusions);
      }
      var retryable := status.Failed? && failure.Some?
                       && (failure.value.CapacityUnavailable? || failure.value.CapacityInsufficient?);
      if !status.AwaitingConfirmation? && !retryable { return Err("IMPORT_BATCH_NOT_READY"); }
      Write(Committing, None, now);
      return Ok(Committing);
    }

    /** commitImportBatch: redelivery after a commit is a no-op, anything else not COMMITTING is refused. */
    method CommitImportBatch(excluded: nat, now: nat) returns (r: Result<bool, string>)
      modifies this
      ensures View() == CommitBatch(old(View()), excluded, now)
      ensures old(status) == Committing ==>
                r == Ok(true)
                && View() == Batch(if excluded > 0 then CommittedWithExclusions else Committed, old(failure), now,
                                   old(materialised) + 1)
      ensures old(status) in {Committed, CommittedWithExclusions, Calculating, ReadyForReview} ==>
                r == Ok(false) && View() == old(View())
      ensures old(status) !in {Committing, Committed, CommittedWithExclusions, Calculating, ReadyForReview} ==>
                r == Err("IMPORT_BATCH_NOT_COMMITTING") && View() == old(View())
    {
      if status.Committed? || status.CommittedWithExclusions? || status.Calculating? || status.ReadyForReview? {
        return Ok(false);
      }
      if !status.Committing? { return Err("IMPORT_BATCH_NOT_COMMITTING"); }
      status := if excluded > 0 then CommittedWithExclusions else Committed;
      updatedAt := now;
      materialised := materialised + 1;
      return Ok(true);
    }

    method MarkImportCommitFailed(code: Code, now: nat) returns (transitioned: bool)
      modifies this
      ensures View() == MarkCommitFailedBatch(old(View()), code, now)
      ensures transitioned <==> old(status) == Committing
      ensures View() == if transitioned then Batch(Failed, Some(code), now, old(materialised)) else old(View())
    {
      transitioned := status.Committing?;
      if transitioned { Write(Failed, Some(code), now); }
    }

    method MarkCalculationRequestFailed(code: Code, now: nat) returns (transitioned: bool)
      modifies this
      ensures View() == MarkCalculationFailedBatch(old(View()), code, now)
      ensures transitioned <==> old(status) in {Committed, CommittedWithExclusions, Calculating}
      ensures View() == if transitioned then Batch(Failed, Some(code), now, old(materialised)) else old(View())
    {
      transitioned := status.Committed? || status.CommittedWithExclusions? || status.Calculating?;
      if transitioned { Write(Failed, Some(code), now); }
    }

    /** The guarded update after a calculation was requested. */
    method AttachRun(run: RunStatus, now: nat)
      modifies this
      ensures View() == AttachRunBatch(old(View()), run, now)
      ensures View() == if old(status) !in {Committed, CommittedWithExclusions, Calculating}
                           || run in {RunReady, RunFailed}
                        then old(View())
                        else if run == RunBlocked then Batch(Failed, Some(CalculationBlocked), now, old(materialised))
                        else Batch(Calculating, None, now, old(materialised))
    {
      if !(status.Committed? || status.CommittedWithExclusions? || status.Calculating?) { return; }
      if !(run.RunQueued? || run.RunRunning? || run.RunBlocked?) { return; }
      if run.RunBlocked? { Write(Failed, Some(CalculationBlocked), now); } else { Write(Calculating, None, now); }
    }

    method ProjectCommitFailure(completedOn: nat, now: nat) returns (r: Projected)
      modifies this
      ensures View() == ProjectCommitBatch(old(View()), completedOn, now)
      ensures r.PROJECTED? <==> old(status) == Committing && old(updatedAt) <= completedOn
      ensures View() == if r.PROJECTED? then Batch(Failed, Some(ImportCommitFailed), now, old(materialised))
                        else old(View())
    {
      if !status.Committing? || updatedAt > completedOn { return NOOP; }
      Write(Failed, Some(ImportCommitFailed), now);
      return PROJECTED;
    }

    method ProjectCalculationRequestFailure(completedOn: nat, code: Code, now: nat) returns (r: Projected)
      modifies this
      ensures View() == ProjectRequestFailureBatch(old(View()), completedOn, code, now)
      ensures r.PROJECTED? <==>
              old(status) in {Committed, CommittedWithExclusions, Calculating} && old(updatedAt) <= completedOn
      ensures View() == if r.PROJECTED? then Batch(Failed, Some(code), now, old(materialised)) else old(View())
    {
      if !Requestable(status) || updatedAt > completedOn { return NOOP; }
      Write(Failed, Some(code), now);
      return PROJECTED;
    }

    /** A request that failed although its run exists follows the latest run instead. */
    method ProjectCalculationRequest(latest: Option<Run>, completedOn: nat, now: nat) returns (r: Projected)
      modifies this
      ensures View() == ProjectRequestBatch(old(View()), latest, completedOn, now)
      ensures r.PROJECTED? <==>
              old(status) in {Committed, CommittedWithExclusions, Calculating} && old(updatedAt) <= completedOn
      ensures r.NOOP? ==> View() == old(View())
      ensures r.PROJECTED? ==>
                match latest
                case None => View() == Batch(Failed, Some(CalculationRequestFailed), now, old(materialised))
                case Some(run) =>
                  if run.status in {RunQueued, RunRunning, RunReady} then
                    View() == Batch(Calculating, None, now, old(materialised))
                  else
                    View() == Batch(Failed, Some(if run.failure == None then CalculationBlocked else run.failure.value),
                                    now, old(materialised))
    {
      if latest.Some? && (latest.value.status.RunQueued? || latest.value.status.RunRunning?
                          || latest.value.status.RunReady?) {
        if !Requestable(status) || updatedAt > completedOn { return NOOP; }
        Write(Calculating, None, now);
        return PROJECTED;
      }
      if latest.Some? && (latest.value.status.RunBlocked? || latest.value.status.RunFailed?) {
        var code := if latest.value.failure.Some? then latest.value.failure.value else CalculationBlocked;
        r := ProjectCalculationRequestFailure(completedOn, code, now);
        return;
      }
      r := ProjectCalculationRequestFailure(completedOn, CalculationRequestFailed, now);
    }

    method ProjectAutoPublishFailure(published: bool, completedOn: nat, now: nat) returns (r: Projected)
      modifies this
      ensures View() == ProjectPublishBatch(old(View()), published, completedOn, now)
      ensures r.PROJECTED? <==>
              && old(updatedAt) <= completedOn
              && (if published then old(status) != ResultPublished
                  else old(status) in {Committed, CommittedWithExclusions, Calculating, ReadyForReview,
                                       ResultPublishing})
      ensures View() == if r.NOOP? then old(View())
                        else if published then Batch(ResultPublished, None, now, old(materialised))
                        else Batch(ReadyForReview, Some(AutoPublishFailed), now, old(materialised))
    {
      if published {
        if status.ResultPublished? || updatedAt > completedOn { return NOOP; }
        Write(ResultPublished, None, now);
        return PROJECTED;
      }
      if !(Requestable(status) || status.ReadyForReview? || status.ResultPublishing?)
         || updatedAt > completedOn {
        return NOOP;
      }
      Write(ReadyForReview, Some(AutoPublishFailed), now);
      return PROJECTED;
    }
  }
}
