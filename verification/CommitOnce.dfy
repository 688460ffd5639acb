/** However confirmations, redelivered jobs, failure markers, calculation handlers, publication and
    reconciler passes interleave, a batch's rows become dataset versions at most once. */
module CommitOnce {
  import opened Prelude
  import opened BatchProtocol

  /** A batch that can still reach COMMITTING has never been materialised; every other batch that was not
      cancelled has been materialised exactly once. */
  predicate MaterialisedByStatus(b: Batch) {
    && (PreCommit(b.status) ==> b.materialised == 0)
    && (PostCommit(b.status) ==> b.materialised == 1)
    && (b.status.Failed? ==> b.failure.Some? && (PreCommitCode(b.failure.value) || PostCommitCode(b.failure.value)))
    && (b.status.Failed? && PreCommitCode(b.failure.value) ==> b.materialised == 0)
    && (b.status.Failed? && PostCommitCode(b.failure.value) ==> b.materialised == 1)
    && b.materialised <= 1
  }

  /** Requests, runs, publications and snapshots exist only for a materialised batch. */
  ghost predicate DownstreamOfCommit(s: State) {
    && (forall e | e in s.events && !s.events[e].topic.CommitTopic? :: s.batch.materialised == 1)
    && (forall j | j in s.jobs && !s.jobs[j].topic.CommitTopic? :: s.batch.materialised == 1)
    && (forall r | r in s.runs :: s.batch.materialised == 1)
    && (forall r | r in s.runs && s.runs[r].failure.Some? :: s.runs[r].failure.value.CalculationFailure?)
    && s.snapshots <= s.runs.Keys
  }

  ghost predicate Inv(s: State) {
    MaterialisedByStatus(s.batch) && DownstreamOfCommit(s)
  }

  /** What the batch row may become without a materialisation. */
  predicate RowStep(b: Batch, b': Batch) {
    MaterialisedByStatus(b') && b'.materialised == b.materialised
  }

  lemma UploadRows(b: Batch, expected: nat, analyzed: nat, parsed: nat, now: nat)
    requires MaterialisedByStatus(b)
    ensures RowStep(b, PreflightBatch(b, expected, analyzed, parsed, now))
    ensures RowStep(b, CancelBatch(b, now)) && RowStep(b, RemoveAllBatch(b, now))
  {
  }

  lemma FailureRows(b: Batch, code: Code, now: nat)
    requires MaterialisedByStatus(b)
    ensures CommitCode(code) ==> RowStep(b, MarkCommitFailedBatch(b, code, now))
    ensures RequestCode(code) || code.CalculationFailure? ==> RowStep(b, MarkCalculationFailedBatch(b, code, now))
    ensures b.materialised == 1 ==> RowStep(b, MarkPublishFailedBatch(b, now))
  {
  }

  lemma ResultRows(b: Batch, run: RunStatus, now: nat)
    requires MaterialisedByStatus(b) && b.materialised == 1
    ensures RowStep(b, AttachRunBatch(b, run, now))
    ensures RowStep(b, Set(b, ResultPublishing, None, now)) && RowStep(b, Set(b, ResultPublished, None, now))
  {
  }

  /** A confirmation re-enters the commit only from an unmaterialised batch, and skips it only for a
      materialised one. */
  lemma ConfirmRow(b: Batch, pendingHard: nat, now: nat)
    requires MaterialisedByStatus(b)
    ensures RowStep(b, ConfirmBatch(b, pendingHard, now))
    ensures AwaitsCommit(b) ==> b.materialised == 0
    ensures AwaitsHardExclusion(b) ==> b.materialised == 1
  {
  }

  lemma CommitRow(b: Batch, excluded: nat, now: nat)
    requires MaterialisedByStatus(b) && b.status.Committing?
    ensures b.materialised == 0 && MaterialisedByStatus(CommitBatch(b, excluded, now))
    ensures CommitBatch(b, excluded, now).materialised == 1
  {
  }

  predicate RunFailureOnly(latest: Option<Run>) {
    latest.Some? && latest.value.failure.Some? ==> latest.value.failure.value.CalculationFailure?
  }

  lemma ProjectionRows(b: Batch, latest: Option<Run>, published: bool, completed: nat, now: nat)
    requires MaterialisedByStatus(b) && RunFailureOnly(latest)
    ensures RowStep(b, ProjectCommitBatch(b, completed, now))
    ensures b.materialised == 1 ==> RowStep(b, ProjectRequestBatch(b, latest, completed, now))
    ensures b.materialised == 1 ==> RowStep(b, ProjectPublishBatch(b, published, completed, now))
  {
  }

  predicate SameTables(s: State, p: State) {
    p.events == s.events && p.jobs == s.jobs && p.snapshots == s.snapshots && p.runs.Keys == s.runs.Keys
  }

  lemma RunFailureShape(s: State, run: nat, code: Code, now: nat)
    requires Inv(s) && code.CalculationFailure?
    ensures var p := MarkRunFailedOf(s, run, code, now);
            RowStep(s.batch, p.batch) && SameTables(s, p) && p.passes == s.passes
            && forall r | r in p.runs && p.runs[r].failure.Some? :: p.runs[r].failure.value.CalculationFailure?
  {
    hide MaterialisedByStatus, MarkCalculationFailedBatch;
    FailureRows(s.batch, code, now);
  }

  lemma ProjectionShape(s: State, job: Job, now: nat)
    requires Inv(s) && job.state.FailedAt? && (!job.topic.CommitTopic? ==> s.batch.materialised == 1)
    ensures var p := ProjectionOf(s, job, now);
            RowStep(s.batch, p.batch) && SameTables(s, p)
            && forall r | r in p.runs && p.runs[r].failure.Some? :: p.runs[r].failure.value.CalculationFailure?
  {
    hide MaterialisedByStatus, ProjectCommitBatch, ProjectRequestBatch, ProjectPublishBatch, MarkRunFailedOf;
    if job.topic.RunTopic? {
      RunFailureShape(s, job.run, CalculationFailure("CALCULATION_FAILED"), now);
    } else {
      ProjectionRows(s.batch, Latest(s), job.run in s.snapshots, job.state.at, now);
    }
  }

  lemma ProjectionKeepsInv(s: State, worker: nat, now: nat)
    requires Inv(s) && Enabled(s, ProjectJob(worker))
    ensures Inv(ProjectOf(s, worker, now))
    ensures ProjectOf(s, worker, now).batch.materialised == s.batch.materialised
  {
    hide ProjectionOf, MaterialisedByStatus;
    ProjectionShape(s, s.jobs[s.passes[worker].phase.job], now);
  }

  lemma ConfirmKeepsInv(s: State, pendingHard: nat, event: nat, now: nat)
    requires Inv(s)
    ensures Inv(ConfirmOf(s, pendingHard, event, now))
  {
    hide MaterialisedByStatus, ConfirmBatch, AwaitsCommit, AwaitsHardExclusion;
    ConfirmRow(s.batch, pendingHard, now);
  }

  lemma CommitKeepsInv(s: State, excluded: nat, event: nat, now: nat)
    requires Inv(s)
    ensures Inv(CommitOf(s, excluded, event, now))
  {
    hide MaterialisedByStatus, CommitBatch;
    if s.batch.status.Committing? {
      CommitRow(s.batch, excluded, now);
    }
  }

  lemma RunStepsKeepInv(s: State, job: nat, run: nat, event: nat, code: Code, now: nat)
    requires Inv(s) && code.CalculationFailure?
    ensures Enabled(s, RequestRun(job, run, event)) ==> Inv(RequestRunOf(s, run, event, now))
    ensures Inv(CompleteRunOf(s, run, event, now)) && Inv(MarkRunFailedOf(s, run, code, now))
  {
    hide MaterialisedByStatus, MarkCalculationFailedBatch;
    FailureRows(s.batch, code, now);
  }

  lemma PublishStepKeepsInv(s: State, run: nat, now: nat)
    requires Inv(s)
    ensures Inv(AttachRunOf(s, run, now)) && Inv(StartPublishOf(s, run, now)) && Inv(FinishPublishOf(s, run, now))
  {
    hide MaterialisedByStatus, AttachRunBatch, Set;
    if run in s.runs {
      ResultRows(s.batch, s.runs[run].status, now);
    }
  }

  lemma QueueStepKeepsInv(s: State, step: Step, s': State)
    requires Inv(s) && Next(s, step, s') && QueueStep(step)
    ensures Inv(s') && s'.batch == s.batch
  {
    hide MaterialisedByStatus;
  }

  lemma RowStepKeepsInv(s: State, step: Step, s': State)
    requires Inv(s) && Next(s, step, s')
    requires step.CancelUpload? || step.RemoveAllFiles? || step.MarkCommitFailed? || step.MarkRequestFailed?
             || step.MarkPublishFailed?
    ensures Inv(s')
  {
    hide MaterialisedByStatus, CancelBatch, RemoveAllBatch, MarkCommitFailedBatch, MarkCalculationFailedBatch,
      MarkPublishFailedBatch;
    var now := s'.clock;
    if step.MarkCommitFailed? || step.MarkRequestFailed? {
      FailureRows(s.batch, step.code, now);
    } else {
      UploadRows(s.batch, 0, 0, 0, now);
      FailureRows(s.batch, HardIncomplete, now);
    }
  }

  lemma PreflightKeepsInv(s: State, expected: nat, analyzed: nat, parsed: nat, event: nat, now: nat)
    requires Inv(s)
    ensures Inv(PreflightOf(s, expected, analyzed, parsed, event, now))
  {
    hide MaterialisedByStatus, PreflightBatch;
    UploadRows(s.batch, expected, analyzed, parsed, now);
  }

  lemma RunStepKeepsInv(s: State, step: Step, s': State)
    requires Inv(s) && Next(s, step, s')
    requires !QueueStep(step) && !(step.CancelUpload? || step.RemoveAllFiles? || step.MarkCommitFailed?
             || step.MarkRequestFailed? || step.MarkPublishFailed?)
    ensures Inv(s')
  {
    hide MaterialisedByStatus, PreflightOf, ConfirmOf, CommitOf, RequestRunOf, CompleteRunOf, MarkRunFailedOf,
      AttachRunOf, StartPublishOf, FinishPublishOf, ProjectOf;
    var now := s'.clock;
    match step
    case Preflight(expected, analyzed, parsed, event) => PreflightKeepsInv(s, expected, analyzed, parsed, event, now);
    case Confirm(pendingHard, event) => ConfirmKeepsInv(s, pendingHard, event, now);
    case Commit(excluded, event) => CommitKeepsInv(s, excluded, event, now);
    case RequestRun(job, run, event) => RunStepsKeepInv(s, job, run, event, CalculationFailure(""), now);
    case CompleteRun(run, event) => RunStepsKeepInv(s, 0, run, event, CalculationFailure(""), now);
    case MarkRunFailed(run, code) => RunStepsKeepInv(s, 0, run, 0, code, now);
    case AttachRun(run) => PublishStepKeepsInv(s, run, now);
    case StartPublish(run) => PublishStepKeepsInv(s, run, now);
    case FinishPublish(run) => PublishStepKeepsInv(s, run, now);
    case ProjectJob(worker) => ProjectionKeepsInv(s, worker, now);
  }

  lemma StepKeepsInv(s: State, step: Step, s': State)
    requires Inv(s) && Next(s, step, s')
    ensures Inv(s')
  {
    hide Inv, Next;
    if QueueStep(step) {
      QueueStepKeepsInv(s, step, s');
    } else if step.CancelUpload? || step.RemoveAllFiles? || step.MarkCommitFailed? || step.MarkRequestFailed?
              || step.MarkPublishFailed? {
      RowStepKeepsInv(s, step, s');
    } else {
      RunStepKeepsInv(s, step, s');
    }
  }

  lemma {:induction false} ReachableInv(states: seq<State>, steps: seq<Step>, i: nat)
    requires Execution(states, steps) && i < |states|
    ensures Inv(states[i])
  {
    hide Next;
    if i > 0 {
      ReachableInv(states, steps, i - 1);
      StepKeepsInv(states[i - 1], steps[i - 1], states[i]);
    }
  }

  /** The batch row each step leaves behind. */
  ghost function RowAfter(s: State, step: Step, now: nat): Batch
    requires Enabled(s, step)
  {
    match step
    case Preflight(expected, analyzed, parsed, _) => PreflightBatch(s.batch, expected, analyzed, parsed, now)
    case CancelUpload => CancelBatch(s.batch, now)
    case RemoveAllFiles => RemoveAllBatch(s.batch, now)
    case Confirm(pendingHard, _) => ConfirmBatch(s.batch, pendingHard, now)
    case Commit(excluded, _) => CommitBatch(s.batch, excluded, now)
    case MarkCommitFailed(code) => MarkCommitFailedBatch(s.batch, code, now)
    case MarkRequestFailed(code) => MarkCalculationFailedBatch(s.batch, code, now)
    case AttachRun(run) => if run in s.runs then AttachRunBatch(s.batch, s.runs[run].status, now) else s.batch
    case MarkRunFailed(run, code) => MarkRunFailedOf(s, run, code, now).batch
    case StartPublish(run) => if run in s.runs then Set(s.batch, ResultPublishing, None, now) else s.batch
    case FinishPublish(run) => if run in s.snapshots then Set(s.batch, ResultPublished, None, now) else s.batch
    case MarkPublishFailed(_) => MarkPublishFailedBatch(s.batch, now)
    case ProjectJob(worker) => ProjectionOf(s, s.jobs[s.passes[worker].phase.job], now).batch
    case _ => s.batch
  }

  lemma StepRow(s: State, step: Step, s': State)
    requires Next(s, step, s')
    ensures Enabled(s, step) && s'.batch == RowAfter(s, step, s'.clock)
  {
    hide ProjectionOf, MarkRunFailedOf, PreflightBatch, CancelBatch, RemoveAllBatch, MarkCommitFailedBatch,
      MarkCalculationFailedBatch, MarkPublishFailedBatch, AttachRunBatch;
  }

  lemma RowsKeepCount(b: Batch, expected: nat, analyzed: nat, parsed: nat, code: Code, run: RunStatus, now: nat)
    ensures PreflightBatch(b, expected, analyzed, parsed, now).materialised == b.materialised
    ensures CancelBatch(b, now).materialised == b.materialised && RemoveAllBatch(b, now).materialised == b.materialised
    ensures ConfirmBatch(b, expected, now).materialised == b.materialised
    ensures MarkCommitFailedBatch(b, code, now).materialised == b.materialised
    ensures MarkCalculationFailedBatch(b, code, now).materialised == b.materialised
    ensures MarkPublishFailedBatch(b, now).materialised == b.materialised
    ensures AttachRunBatch(b, run, now).materialised == b.materialised
  {
  }

  /** Which transaction materialises: only a commit that found the batch COMMITTING, and only the first. */
  lemma OnlyCommitMaterialises(s: State, step: Step, s': State)
    requires Inv(s) && Next(s, step, s')
    ensures s'.batch.materialised != s.batch.materialised <==> step.Commit? && s.batch.status.Committing?
    ensures s'.batch.materialised != s.batch.materialised ==> s.batch.materialised == 0 && s'.batch.materialised == 1
  {
    hide Next, ProjectionOf, PreflightBatch, CancelBatch, RemoveAllBatch, ConfirmBatch, MarkCommitFailedBatch,
      MarkCalculationFailedBatch, MarkPublishFailedBatch, AttachRunBatch;
    StepRow(s, step, s');
    var now := s'.clock;
    match step
    case Preflight(expected, analyzed, parsed, _) =>
      RowsKeepCount(s.batch, expected, analyzed, parsed, HardIncomplete, RunQueued, now);
    case Confirm(pendingHard, _) => RowsKeepCount(s.batch, pendingHard, 0, 0, HardIncomplete, RunQueued, now);
    case MarkCommitFailed(code) => RowsKeepCount(s.batch, 0, 0, 0, code, RunQueued, now);
    case MarkRequestFailed(code) => RowsKeepCount(s.batch, 0, 0, 0, code, RunQueued, now);
    case MarkRunFailed(_, code) => RowsKeepCount(s.batch, 0, 0, 0, code, RunQueued, now);
    case AttachRun(run) =>
      if run in s.runs { RowsKeepCount(s.batch, 0, 0, 0, HardIncomplete, s.runs[run].status, now); }
    case ProjectJob(worker) => ProjectionShape(s, s.jobs[s.passes[worker].phase.job], now);
    case _ => RowsKeepCount(s.batch, 0, 0, 0, HardIncomplete, RunQueued, now);
  }

  /** Main result: once some step has materialised the batch, no later step does, and no later state is
      COMMITTING, or can be brought back to it: a retryable failure code never appears again. */
  lemma {:induction false} MaterialisedAtMostOnce(states: seq<State>, steps: seq<Step>, i: nat, j: nat)
    requires Execution(states, steps) && i < j < |states|
    requires states[i + 1].batch.materialised != states[i].batch.materialised
    ensures states[j].batch.materialised == 1
    ensures !PreCommit(states[j].batch.status) && !AwaitsCommit(states[j].batch)
    ensures j < |steps| ==> states[j + 1].batch.materialised == states[j].batch.materialised
    decreases j
  {
    hide Init, Next, DownstreamOfCommit;
    ReachableInv(states, steps, i);
    ReachableInv(states, steps, j);
    if j > i + 1 {
      MaterialisedAtMostOnce(states, steps, i, j - 1);
    } else {
      OnlyCommitMaterialises(states[i], steps[i], states[i + 1]);
    }
    if j < |steps| {
      OnlyCommitMaterialises(states[j], steps[j], states[j + 1]);
    }
  }

  lemma PublishedRows(b: Batch, expected: nat, analyzed: nat, parsed: nat, code: Code, run: RunStatus,
                      latest: Option<Run>, now: nat)
    requires b.status.ResultPublished?
    ensures PreflightBatch(b, expected, analyzed, parsed, now) == CancelBatch(b, now) == RemoveAllBatch(b, now) == b
    ensures ConfirmBatch(b, expected, now) == CommitBatch(b, expected, now) == MarkCommitFailedBatch(b, code, now) == b
    ensures MarkCalculationFailedBatch(b, code, now) == MarkPublishFailedBatch(b, now) == AttachRunBatch(b, run, now)
            == b
    ensures ProjectCommitBatch(b, expected, now) == ProjectRequestBatch(b, latest, expected, now) == b
    ensures ProjectPublishBatch(b, analyzed > 0, expected, now) == b
  {
  }

  lemma ProjectionKeepsPublished(s: State, job: Job, now: nat)
    requires s.batch.status.ResultPublished? && job.state.FailedAt?
    ensures ProjectionOf(s, job, now).batch == s.batch
  {
    hide ProjectCommitBatch, ProjectRequestBatch, ProjectPublishBatch, MarkCalculationFailedBatch;
    PublishedRows(s.batch, job.state.at, if job.run in s.snapshots then 1 else 0, 0,
                  CalculationFailure("CALCULATION_FAILED"), RunQueued, Latest(s), now);
  }

  /** RESULT_PUBLISHED is not absorbing: exactly the first transaction of a redelivered publication leaves
      it. No reconciler step does. */
  lemma LeavesPublishedExactly(s: State, step: Step, s': State)
    requires Next(s, step, s') && s.batch.status.ResultPublished?
    ensures !s'.batch.status.ResultPublished? <==> step.StartPublish? && step.run in s.runs
  {
    hide Next, ProjectionOf, PreflightBatch, CancelBatch, RemoveAllBatch, ConfirmBatch, CommitBatch,
      MarkCommitFailedBatch, MarkCalculationFailedBatch, MarkPublishFailedBatch, AttachRunBatch;
    StepRow(s, step, s');
    var now, none := s'.clock, None;
    match step
    case Preflight(expected, analyzed, parsed, _) =>
      PublishedRows(s.batch, expected, analyzed, parsed, HardIncomplete, RunQueued, none, now);
    case Confirm(pendingHard, _) => PublishedRows(s.batch, pendingHard, 0, 0, HardIncomplete, RunQueued, none, now);
    case Commit(excluded, _) => PublishedRows(s.batch, excluded, 0, 0, HardIncomplete, RunQueued, none, now);
    case MarkCommitFailed(code) => PublishedRows(s.batch, 0, 0, 0, code, RunQueued, none, now);
    case MarkRequestFailed(code) => PublishedRows(s.batch, 0, 0, 0, code, RunQueued, none, now);
    case MarkRunFailed(_, code) => PublishedRows(s.batch, 0, 0, 0, code, RunQueued, none, now);
    case AttachRun(run) =>
      if run in s.runs { PublishedRows(s.batch, 0, 0, 0, HardIncomplete, s.runs[run].status, none, now); }
    case ProjectJob(worker) => ProjectionKeepsPublished(s, s.jobs[s.passes[worker].phase.job], now);
    case _ => PublishedRows(s.batch, 0, 0, 0, HardIncomplete, RunQueued, none, now);
  }

  /** Such a redelivery can leave a published batch back in review. */
  lemma RedeliveredPublicationCanUnpublish(s: State, run: nat, job: nat)
    requires s.batch.status.ResultPublished? && run in s.runs
    requires job in s.jobs && s.jobs[job].topic.PublishTopic?
    ensures exists s1, s2 :: Next(s, StartPublish(run), s1) && Next(s1, MarkPublishFailed(job), s2)
                             && s2.batch.status.ReadyForReview?
  {
    var s1 := Effect(s, StartPublish(run), s.clock + 1).(clock := s.clock + 1);
    var s2 := Effect(s1, MarkPublishFailed(job), s.clock + 2).(clock := s.clock + 2);
    assert Next(s, StartPublish(run), s1) && Next(s1, MarkPublishFailed(job), s2);
  }
}
