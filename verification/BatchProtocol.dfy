/** One import batch, the calculation runs created for it, its outbox events and queue jobs, and
    every transaction that writes them. A transaction is one atomic step taken at a clock value
    later than all earlier ones. Steps on other batches are not seen from here. */
module BatchProtocol {
  import opened Prelude

  datatype Status =
    | Draft | Uploading | Analyzing | AwaitingFiles | AwaitingMapping | AwaitingConfirmation
    | Retrying | Committing
    | Committed | CommittedWithExclusions | Calculating
    | ReadyForReview | ResultPublishing | ResultPublished
    | Cancelled | Failed

  datatype Code =
    | NoUsableUploadFiles
    | CapacityUnavailable | CapacityInsufficient
    | CommitRejected(reason: string)       // the other safe commit codes
    | ImportCommitFailed
    | HardIncomplete                       // HARD_INCOMPLETE_CONFIRMATION_REQUIRED
    | RequestBlocked(reason: string)       // the other calculation request blockers
    | CalculationRequestFailed
    | CalculationBlocked
    | CalculationFailure(reason: string)   // what a failed run stores
    | AutoPublishFailed

  datatype Topic = CommitTopic | RequestTopic | RunTopic | PublishTopic

  /** The import_batch row, with how often its rows became dataset versions. */
  datatype Batch = Batch(status: Status, failure: Option<Code>, updatedAt: nat, materialised: nat)

  datatype RunStatus = RunQueued | RunRunning | RunReady | RunBlocked | RunFailed

  datatype Run = Run(status: RunStatus, failure: Option<Code>, createdAt: nat)

  datatype Event = Event(topic: Topic, run: nat, createdAt: nat, dispatched: bool)

  datatype JobState = Active | FailedAt(at: nat) | Finished

  /** A queue job and the outbox event it was inserted for. */
  datatype Job = Job(topic: Topic, run: nat, event: nat, createdAt: nat, state: JobState)

  /** A job_operation row of the reconciler, with when it first became SUCCEEDED. */
  datatype Op = Succeeded(at: nat) | NotSucceeded

  /** What one pass of the reconciler is doing with the job in hand: the supersession query has let it
      through (Cleared), or only its outcome is left to be recorded (Decided). */
  datatype Phase = Idle | Cleared(job: nat, since: nat) | Decided(job: nat)

  datatype Pass = Pass(selectedAt: nat, remaining: set<nat>, phase: Phase)

  datatype State = State(
    clock: nat,
    batch: Batch,
    runs: map<nat, Run>,
    snapshots: set<nat>,                // runs with a published snapshot
    events: map<nat, Event>,            // unique by (topic, business key); a key is an id or the run's
    jobs: map<nat, Job>,
    ops: map<nat, Op>,                  // reconciliation records by job
    passes: map<nat, Pass>,             // reconciler passes by worker process
    changedBy: multiset<nat>            // history: jobs whose projection changed the batch
  )

  predicate PreCommit(status: Status) {
    || status.Draft? || status.Uploading? || status.Analyzing? || status.AwaitingFiles?
    || status.AwaitingMapping? || status.AwaitingConfirmation? || status.Retrying? || status.Committing?
  }

  predicate Requestable(status: Status) {
    status.Committed? || status.CommittedWithExclusions? || status.Calculating?
  }

  predicate PostCommit(status: Status) {
    Requestable(status) || status.ReadyForReview? || status.ResultPublishing? || status.ResultPublished?
  }

  /** A run that has neither finished nor failed. */
  predicate Open(status: RunStatus) {
    status.RunQueued? || status.RunRunning? || status.RunBlocked?
  }

  predicate RetryableCommitFailure(code: Code) {
    code.CapacityUnavailable? || code.CapacityInsufficient?
  }

  /** Codes a commit attempt stores, by itself or through its failure marker. */
  predicate CommitCode(code: Code) {
    RetryableCommitFailure(code) || code.CommitRejected? || code.ImportCommitFailed?
  }

  predicate PreCommitCode(code: Code) {
    CommitCode(code) || code.NoUsableUploadFiles?
  }

  /** Codes the calculation request handler stores. */
  predicate RequestCode(code: Code) {
    code.HardIncomplete? || code.RequestBlocked? || code.CalculationRequestFailed?
  }

  predicate PostCommitCode(code: Code) {
    RequestCode(code) || code.CalculationBlocked? || code.CalculationFailure?
  }

  // ---- what each transaction does to the batch row -------------------------------------------

  function Set(b: Batch, status: Status, failure: Option<Code>, now: nat): Batch {
    Batch(status, failure, now, b.materialised)
  }

  /** decideUploadPreflight and the update of refreshUploadPreflight. */
  function PreflightBatch(b: Batch, expected: nat, analyzed: nat, parsed: nat, now: nat): Batch {
    if !(b.status.Uploading? || b.status.Analyzing? || b.status.AwaitingFiles? || b.status.AwaitingMapping?
         || b.status.AwaitingConfirmation?) then b
    else if expected == 0 then Set(b, Failed, Some(NoUsableUploadFiles), now)
    else if expected != analyzed then Set(b, Analyzing, None, now)
    else if parsed == 0 then Set(b, Failed, Some(NoUsableUploadFiles), now)
    else Set(b, Committing, None, now)
  }

  function CancelBatch(b: Batch, now: nat): Batch {
    if (PreCommit(b.status) && !b.status.Committing?) || b.status.Failed? then Set(b, Cancelled, b.failure, now) else b
  }

  function RemoveAllBatch(b: Batch, now: nat): Batch {
    if b.status.Uploading? then Set(b, Cancelled, b.failure, now) else b
  }

  predicate AwaitsHardExclusion(b: Batch) {
    b.status.Failed? && b.failure == Some(HardIncomplete)
  }

  predicate AwaitsCommit(b: Batch) {
    b.status.AwaitingConfirmation? || (b.status.Failed? && b.failure.Some? && RetryableCommitFailure(b.failure.value))
  }

  /** confirmImportBatch; a refusal leaves the row alone. */
  function ConfirmBatch(b: Batch, pendingHard: nat, now: nat): Batch {
    if AwaitsHardExclusion(b) then
      if pendingHard > 0 then b else Set(b, CommittedWithExclusions, None, now)
    else if AwaitsCommit(b) then Set(b, Committing, None, now)
    else b
  }

  /** commitImportBatch up to its COMMIT; every other outcome rolls back. */
  function CommitBatch(b: Batch, excluded: nat, now: nat): Batch {
    if !b.status.Committing? then b
    else Batch(if excluded > 0 then CommittedWithExclusions else Committed, b.failure, now, b.materialised + 1)
  }

  /** persistSafeFailure and markImportCommitFailed share one guard. */
  function MarkCommitFailedBatch(b: Batch, code: Code, now: nat): Batch {
    if b.status.Committing? then Set(b, Failed, Some(code), now) else b
  }

  /** The guarded update of the calculation.requested handler. */
  function AttachRunBatch(b: Batch, run: RunStatus, now: nat): Batch {
    if !(Requestable(b.status) && Open(run)) then b
    else if run.RunBlocked? then Set(b, Failed, Some(CalculationBlocked), now)
    else Set(b, Calculating, None, now)
  }

  function MarkCalculationFailedBatch(b: Batch, code: Code, now: nat): Batch {
    if Requestable(b.status) then Set(b, Failed, Some(code), now) else b
  }

  function MarkPublishFailedBatch(b: Batch, now: nat): Batch {
    if b.status.ResultPublished? then b else Set(b, ReadyForReview, Some(AutoPublishFailed), now)
  }

  function ProjectCommitBatch(b: Batch, completed: nat, now: nat): Batch {
    if b.status.Committing? && b.updatedAt <= completed then Set(b, Failed, Some(ImportCommitFailed), now) else b
  }

  function ProjectRequestFailureBatch(b: Batch, completed: nat, code: Code, now: nat): Batch {
    if Requestable(b.status) && b.updatedAt <= completed then Set(b, Failed, Some(code), now) else b
  }

  function ProjectRequestBatch(b: Batch, latest: Option<Run>, completed: nat, now: nat): Batch {
    match latest
    case None => ProjectRequestFailureBatch(b, completed, CalculationRequestFailed, now)
    case Some(run) =>
      if run.status.RunQueued? || run.status.RunRunning? || run.status.RunReady? then
        if Requestable(b.status) && b.updatedAt <= completed then Set(b, Calculating, None, now) else b
      else
        ProjectRequestFailureBatch(b, completed,
                                   if run.failure.Some? then run.failure.value else CalculationBlocked, now)
  }

  function ProjectPublishBatch(b: Batch, published: bool, completed: nat, now: nat): Batch {
    if b.updatedAt > completed then b
    else if published then
      if b.status.ResultPublished? then b else Set(b, ResultPublished, None, now)
    else if Requestable(b.status) || b.status.ReadyForReview? || b.status.ResultPublishing? then
      Set(b, ReadyForReview, Some(AutoPublishFailed), now)
    else b
  }

  // ---- the same transactions on the whole state ----------------------------------------------

  /** The business key of these topics is the run's id. */
  predicate KeyedByRun(topic: Topic) {
    topic.RunTopic? || topic.PublishTopic?
  }

  predicate KeyTaken(events: map<nat, Event>, id: nat, topic: Topic, run: nat) {
    id in events || (KeyedByRun(topic) && exists e | e in events :: events[e].topic == topic && events[e].run == run)
  }

  /** INSERT … ON CONFLICT(topic,business_key) DO NOTHING. */
  function AddEvent(events: map<nat, Event>, id: nat, topic: Topic, run: nat, now: nat): map<nat, Event> {
    if KeyTaken(events, id, topic, run) then events else events[id := Event(topic, run, now, false)]
  }

  function PreflightOf(s: State, expected: nat, analyzed: nat, parsed: nat, event: nat, now: nat): State {
    var b := PreflightBatch(s.batch, expected, analyzed, parsed, now);
    if b.status.Committing? && !s.batch.status.Committing? then
      s.(batch := b, events := AddEvent(s.events, event, CommitTopic, 0, now))
    else s.(batch := b)
  }

  function ConfirmOf(s: State, pendingHard: nat, event: nat, now: nat): State {
    if AwaitsHardExclusion(s.batch) then
      if pendingHard > 0 then s
      else s.(batch := ConfirmBatch(s.batch, pendingHard, now),
              events := AddEvent(s.events, event, RequestTopic, 0, now))
    else if AwaitsCommit(s.batch) then
      s.(batch := ConfirmBatch(s.batch, pendingHard, now), events := AddEvent(s.events, event, CommitTopic, 0, now))
    else s
  }

  function CommitOf(s: State, excluded: nat, event: nat, now: nat): State {
    if !s.batch.status.Committing? then s
    else s.(batch := CommitBatch(s.batch, excluded, now), events := AddEvent(s.events, event, RequestTopic, 0, now))
  }

  function RequestRunOf(s: State, run: nat, event: nat, now: nat): State {
    if run in s.runs then s
    else s.(runs := s.runs[run := Run(RunQueued, None, now)], events := AddEvent(s.events, event, RunTopic, run, now))
  }

  function AttachRunOf(s: State, run: nat, now: nat): State {
    if run in s.runs then s.(batch := AttachRunBatch(s.batch, s.runs[run].status, now)) else s
  }

  /** calculateRun: a READY run only re-enqueues its publication. */
  function CompleteRunOf(s: State, run: nat, event: nat, now: nat): State {
    if run in s.runs && (Open(s.runs[run].status) || s.runs[run].status.RunReady?) then
      s.(runs := s.runs[run := s.runs[run].(status := RunReady, failure := None)],
         events := AddEvent(s.events, event, PublishTopic, run, now))
    else s
  }

  function MarkRunFailedOf(s: State, run: nat, code: Code, now: nat): State {
    if run in s.runs && Open(s.runs[run].status) then
      s.(runs := s.runs[run := s.runs[run].(status := RunFailed, failure := Some(code))],
         batch := MarkCalculationFailedBatch(s.batch, code, now))
    else s
  }

  /** autoPublishCalculation writes RESULT_PUBLISHING whatever the batch holds. */
  function StartPublishOf(s: State, run: nat, now: nat): State {
    if run in s.runs then s.(batch := Set(s.batch, ResultPublishing, None, now)) else s
  }

  function FinishPublishOf(s: State, run: nat, now: nat): State {
    if run in s.snapshots then s.(batch := Set(s.batch, ResultPublished, None, now)) else s
  }

  /** The run the reconciler looks at: the latest one created for the batch. */
  ghost predicate LatestRun(s: State, run: nat) {
    run in s.runs && forall r | r in s.runs :: s.runs[r].createdAt <= s.runs[run].createdAt
  }

  ghost function Latest(s: State): (r: Option<Run>)
    ensures r.Some? ==> exists run :: LatestRun(s, run) && r.value == s.runs[run]
  {
    if exists r :: LatestRun(s, r) then (var r :| LatestRun(s, r); Some(s.runs[r])) else None
  }

  /** createTerminalFailureProjector for the four queues that write the batch. */
  ghost function ProjectionOf(s: State, job: Job, now: nat): State
    requires job.state.FailedAt?
  {
    match job.topic
    case CommitTopic => s.(batch := ProjectCommitBatch(s.batch, job.state.at, now))
    case RequestTopic => s.(batch := ProjectRequestBatch(s.batch, Latest(s), job.state.at, now))
    case RunTopic => MarkRunFailedOf(s, job.run, CalculationFailure("CALCULATION_FAILED"), now)
    case PublishTopic => s.(batch := ProjectPublishBatch(s.batch, job.run in s.snapshots, job.state.at, now))
  }

  // ---- the reconciler's queries --------------------------------------------------------------

  /** Two queue entries with the same topic and business key. */
  predicate SameKey(topicA: Topic, runA: nat, topicB: Topic, runB: nat) {
    topicA == topicB && (topicB.RunTopic? ==> runA == runB)
  }

  /** (created_on,id) > (created_on,id). */
  predicate Newer(jobs: map<nat, Job>, other: nat, job: nat)
    requires other in jobs && job in jobs
  {
    var a, b := jobs[other], jobs[job];
    SameKey(a.topic, a.run, b.topic, b.run)
    && (a.createdAt > b.createdAt || (a.createdAt == b.createdAt && other > job))
  }

  predicate Pending(e: Event, j: Job) {
    SameKey(e.topic, e.run, j.topic, j.run) && !e.dispatched
  }

  /** isSuperseded: a newer job or an undispatched event with the same key. */
  ghost predicate Superseded(jobs: map<nat, Job>, events: map<nat, Event>, job: nat)
    requires job in jobs
  {
    (exists other | other in jobs :: Newer(jobs, other, job))
    || (exists e | e in events :: Pending(events[e], jobs[job]))
  }

  predicate Reconcilable(s: State, job: nat) {
    job in s.jobs && s.jobs[job].state.FailedAt? && (job in s.ops ==> s.ops[job].NotSucceeded?)
  }

  // ---- steps ---------------------------------------------------------------------------------

  datatype Step =
    | Preflight(expected: nat, analyzed: nat, parsed: nat, event: nat)
    | CancelUpload
    | RemoveAllFiles
    | Confirm(pendingHard: nat, event: nat)
    | Commit(excluded: nat, event: nat)
    | MarkCommitFailed(code: Code)
    | RequestRun(job: nat, run: nat, event: nat)
    | AttachRun(run: nat)
    | MarkRequestFailed(code: Code)
    | CompleteRun(run: nat, event: nat)
    | MarkRunFailed(run: nat, code: Code)
    | StartPublish(run: nat)
    | InsertSnapshot(run: nat)
    | FinishPublish(run: nat)
    | MarkPublishFailed(job: nat)
    | BossInsert(event: nat, job: nat)       // at-least-once: the event may stay undispatched
    | MarkDispatched(event: nat)             // in the transaction that inserted a job for it
    | FailJob(job: nat)
    | FinishJob(job: nat)
    | SelectJobs(worker: nat, selected: set<nat>)
    | CheckJob(worker: nat, job: nat)
    | ProjectJob(worker: nat)
    | RecordJob(worker: nat)
    | GiveUpJob(worker: nat, job: nat)       // deferred, or the attempt threw
    | OtherBatch

  /** tryWithJobExecutionLock: no other pass is at a job with the same key. */
  predicate LockFree(s: State, worker: nat, job: nat)
    requires job in s.jobs
  {
    forall v | v in s.passes && v != worker && !s.passes[v].phase.Idle? && s.passes[v].phase.job in s.jobs ::
      var other := s.jobs[s.passes[v].phase.job];
      !SameKey(other.topic, other.run, s.jobs[job].topic, s.jobs[job].run)
  }

  /** Whether the transaction can be attempted at all; a guard inside a transaction that does not hold
      makes the step change nothing but the clock. */
  predicate Enabled(s: State, step: Step) {
    match step
    case MarkCommitFailed(code) => CommitCode(code)
    case RequestRun(job, _, _) => job in s.jobs && s.jobs[job].topic.RequestTopic? && s.jobs[job].state.Active?
    case MarkRequestFailed(code) => RequestCode(code)
    case MarkRunFailed(_, code) => code.CalculationFailure?
    case InsertSnapshot(run) => run in s.runs && s.runs[run].status.RunReady?
    case MarkPublishFailed(job) => job in s.jobs && s.jobs[job].topic.PublishTopic?
    case BossInsert(event, job) => event in s.events && !s.events[event].dispatched && job !in s.jobs
    case MarkDispatched(event) => event in s.events && exists j | j in s.jobs :: s.jobs[j].event == event
    case FailJob(job) => job in s.jobs && s.jobs[job].state.Active?
    case FinishJob(job) => job in s.jobs && s.jobs[job].state.Active?
    case SelectJobs(worker, selected) =>
      (worker in s.passes ==> s.passes[worker].remaining == {} && s.passes[worker].phase.Idle?)
      && forall j | j in selected :: Reconcilable(s, j)
    case CheckJob(worker, job) =>
      worker in s.passes && s.passes[worker].phase.Idle? && job in s.passes[worker].remaining && job in s.jobs
      && LockFree(s, worker, job)
    case ProjectJob(worker) =>
      worker in s.passes && s.passes[worker].phase.Cleared?
      && s.passes[worker].phase.job in s.jobs && s.jobs[s.passes[worker].phase.job].state.FailedAt?
    case RecordJob(worker) => worker in s.passes && s.passes[worker].phase.Decided?
    case GiveUpJob(worker, job) => worker in s.passes && job in s.passes[worker].remaining
    case _ => true
  }

  /** Queue, dispatch and bookkeeping transactions leave the batch and its runs alone. */
  predicate QueueStep(step: Step) {
    || step.BossInsert? || step.MarkDispatched? || step.FailJob? || step.FinishJob? || step.SelectJobs?
    || step.CheckJob? || step.RecordJob? || step.GiveUpJob? || step.InsertSnapshot? || step.OtherBatch?
  }

  ghost function CheckOf(s: State, worker: nat, job: nat, now: nat): State
    requires Enabled(s, CheckJob(worker, job))
  {
    var phase := if Superseded(s.jobs, s.events, job) then Decided(job) else Cleared(job, now);
    s.(passes := s.passes[worker := s.passes[worker].(phase := phase)])
  }

  ghost function ProjectOf(s: State, worker: nat, now: nat): State
    requires Enabled(s, ProjectJob(worker))
  {
    var pass := s.passes[worker];
    var job := pass.phase.job;
    var projected := ProjectionOf(s, s.jobs[job], now);
    projected.(
      passes := s.passes[worker := pass.(phase := Decided(job))],
      changedBy := if projected.batch == s.batch then s.changedBy else s.changedBy + multiset{job})
  }

  function RecordOf(s: State, worker: nat, now: nat): State
    requires Enabled(s, RecordJob(worker))
  {
    var pass := s.passes[worker];
    var job := pass.phase.job;
    s.(ops := if job in s.ops && s.ops[job].Succeeded? then s.ops else s.ops[job := Succeeded(now)],
       passes := s.passes[worker := pass.(remaining := pass.remaining - {job}, phase := Idle)])
  }

  function GiveUpOf(s: State, worker: nat, job: nat): State
    requires Enabled(s, GiveUpJob(worker, job))
  {
    var pass := s.passes[worker];
    s.(ops := if job in s.ops && s.ops[job].Succeeded? then s.ops else s.ops[job := NotSucceeded],
       passes := s.passes[worker := pass.(remaining := pass.remaining - {job}, phase := Idle)])
  }

  ghost function Effect(s: State, step: Step, now: nat): State
    requires Enabled(s, step)
  {
    match step
    case Preflight(expected, analyzed, parsed, event) => PreflightOf(s, expected, analyzed, parsed, event, now)
    case CancelUpload => s.(batch := CancelBatch(s.batch, now))
    case RemoveAllFiles => s.(batch := RemoveAllBatch(s.batch, now))
    case Confirm(pendingHard, event) => ConfirmOf(s, pendingHard, event, now)
    case Commit(excluded, event) => CommitOf(s, excluded, event, now)
    case MarkCommitFailed(code) => s.(batch := MarkCommitFailedBatch(s.batch, code, now))
    case RequestRun(_, run, event) => RequestRunOf(s, run, event, now)
    case AttachRun(run) => AttachRunOf(s, run, now)
    case MarkRequestFailed(code) => s.(batch := MarkCalculationFailedBatch(s.batch, code, now))
    case CompleteRun(run, event) => CompleteRunOf(s, run, event, now)
    case MarkRunFailed(run, code) => MarkRunFailedOf(s, run, code, now)
    case StartPublish(run) => StartPublishOf(s, run, now)
    case InsertSnapshot(run) => s.(snapshots := s.snapshots + {run})
    case FinishPublish(run) => FinishPublishOf(s, run, now)
    case MarkPublishFailed(_) => s.(batch := MarkPublishFailedBatch(s.batch, now))
    case BossInsert(event, job) =>
      s.(jobs := s.jobs[job := Job(s.events[event].topic, s.events[event].run, event, now, Active)])
    case MarkDispatched(event) => s.(events := s.events[event := s.events[event].(dispatched := true)])
    case FailJob(job) => s.(jobs := s.jobs[job := s.jobs[job].(state := FailedAt(now))])
    case FinishJob(job) => s.(jobs := s.jobs[job := s.jobs[job].(state := Finished)])
    case SelectJobs(worker, selected) => s.(passes := s.passes[worker := Pass(now, selected, Idle)])
    case CheckJob(worker, job) => CheckOf(s, worker, job, now)
    case ProjectJob(worker) => ProjectOf(s, worker, now)
    case RecordJob(worker) => RecordOf(s, worker, now)
    case GiveUpJob(worker, job) => GiveUpOf(s, worker, job)
    case OtherBatch => s
  }

  ghost predicate Next(s: State, step: Step, s': State) {
    Enabled(s, step) && s'.clock > s.clock
    && s' == Effect(s, step, s'.clock).(clock := s'.clock)
  }

  ghost predicate ReplayEvents(events: map<nat, Event>, at: nat) {
    exists e: nat :: events == map[e := Event(CommitTopic, 0, at, false)]
  }

  /** A new batch; a source replay starts COMMITTING and enqueues its commit in the same transaction. */
  ghost predicate Init(s: State) {
    PreCommit(s.batch.status) && s.batch.updatedAt <= s.clock && s.batch.materialised == 0
    && (if s.batch.status.Committing? then ReplayEvents(s.events, s.batch.updatedAt) else s.events == map[])
    && s.runs == map[] && s.snapshots == {} && s.jobs == map[]
    && s.ops == map[] && s.passes == map[] && s.changedBy == multiset{}
  }

  ghost predicate Execution(states: seq<State>, steps: seq<Step>) {
    |states| == |steps| + 1 && Init(states[0])
    && forall i | 0 <= i < |steps| :: Next(states[i], steps[i], states[i + 1])
  }

  ghost predicate Reachable(s: State) {
    exists states: seq<State>, steps: seq<Step> :: Execution(states, steps) && states[|steps|] == s
  }

  lemma StartIsReachable(s: State)
    requires Init(s)
    ensures Reachable(s)
  {
    assert Execution([s], []);
  }

  lemma StepIsReachable(s: State, step: Step, s': State)
    requires Reachable(s) && Next(s, step, s')
    ensures Reachable(s')
  {
    hide Init, Next;
    var states: seq<State>, steps: seq<Step> :| Execution(states, steps) && states[|steps|] == s;
    var longer, more := states + [s'], steps + [step];
    forall i | 0 <= i < |more| ensures Next(longer[i], more[i], longer[i + 1]) {
      if i < |steps| {
        assert longer[i] == states[i] && longer[i + 1] == states[i + 1] && more[i] == steps[i];
      }
    }
    assert Execution(longer, more) && longer[|more|] == s';
  }
}
