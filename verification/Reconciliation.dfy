/** The reconciler looks for a newer job, and only in a later transaction writes the batch. Between the
    two anything may happen; these are the guarantees that survive. */
module Reconciliation {
  import opened Prelude
  import opened BatchProtocol

  /** No recorded time lies in the future. */
  ghost predicate Timely(s: State) {
    && s.batch.updatedAt <= s.clock
    && (forall j | j in s.jobs && s.jobs[j].state.FailedAt? :: s.jobs[j].state.at <= s.clock)
    && (forall j | j in s.jobs :: s.jobs[j].createdAt <= s.clock)
    && (forall e | e in s.events :: s.events[e].createdAt <= s.clock)
    && (forall w | w in s.passes :: s.passes[w].selectedAt <= s.clock)
    && (forall w | w in s.passes && s.passes[w].phase.Cleared? :: s.passes[w].phase.since <= s.clock)
  }

  /** A pass only ever holds jobs that failed for good. */
  ghost predicate PassesHoldFailedJobs(s: State) {
    forall w | w in s.passes ::
      (forall j | j in s.passes[w].remaining :: j in s.jobs && s.jobs[j].state.FailedAt?)
      && (!s.passes[w].phase.Idle? ==> s.passes[w].phase.job in s.passes[w].remaining)
  }

  /** Whoever enqueues a commit or a calculation request also updates the batch. */
  predicate EnqueuedWithUpdate(topic: Topic) {
    topic.CommitTopic? || topic.RequestTopic?
  }

  /** Everything that supersedes job is no older than since. */
  ghost predicate SupersededOnlySince(jobs: map<nat, Job>, events: map<nat, Event>, job: nat, since: nat)
    requires job in jobs
  {
    (forall other | other in jobs && Newer(jobs, other, job) :: jobs[other].createdAt >= since)
    && (forall e | e in events && Pending(events[e], jobs[job]) :: events[e].createdAt >= since)
  }

  /** What a supersession query still guarantees later on. */
  ghost predicate Current(jobs: map<nat, Job>, events: map<nat, Event>, updatedAt: nat, job: nat, since: nat) {
    job in jobs && jobs[job].state.FailedAt? && SupersededOnlySince(jobs, events, job, since)
    && (EnqueuedWithUpdate(jobs[job].topic) ==> updatedAt > jobs[job].state.at || !Superseded(jobs, events, job))
    && (jobs[job].topic.RunTopic? ==> !Superseded(jobs, events, job))
  }

  /** Every job was inserted for an earlier event, a dispatched event has a job, and only runs that exist are
      enqueued. */
  ghost predicate Linked(jobs: map<nat, Job>, events: map<nat, Event>, runs: map<nat, Run>) {
    && (forall e | e in events && events[e].topic.RunTopic? :: events[e].run in runs)
    && (forall j | j in jobs :: jobs[j].event in events && InsertedFor(jobs[j], events[jobs[j].event]))
    && (forall e | e in events && events[e].dispatched :: exists j | j in jobs :: jobs[j].event == e)
  }

  predicate InsertedFor(j: Job, e: Event) {
    j.topic == e.topic && j.run == e.run && j.createdAt > e.createdAt
  }

  ghost predicate ClearedMeansCurrent(s: State) {
    forall w | w in s.passes && s.passes[w].phase.Cleared? ::
      Current(s.jobs, s.events, s.batch.updatedAt, s.passes[w].phase.job, s.passes[w].phase.since)
  }

  /** A job that changed the batch cannot change it again. */
  predicate Spent(jobs: map<nat, Job>, runs: map<nat, Run>, updatedAt: nat, job: nat) {
    job in jobs && jobs[job].state.FailedAt?
    && (if jobs[job].topic.RunTopic? then jobs[job].run in runs && runs[jobs[job].run].status.RunFailed?
        else updatedAt > jobs[job].state.at)
  }

  ghost predicate SpentJobs(s: State) {
    forall j | j in s.changedBy :: s.changedBy[j] == 1 && Spent(s.jobs, s.runs, s.batch.updatedAt, j)
  }

  predicate HasSucceeded(s: State, job: nat) {
    job in s.ops && s.ops[job].Succeeded?
  }

  ghost predicate SelectedBeforeSuccess(s: State) {
    forall w, j | w in s.passes && j in s.passes[w].remaining && HasSucceeded(s, j) ::
      s.passes[w].selectedAt < s.ops[j].at
  }

  ghost predicate Inv(s: State) {
    Timely(s) && Linked(s.jobs, s.events, s.runs) && PassesHoldFailedJobs(s) && ClearedMeansCurrent(s) && SpentJobs(s)
    && SelectedBeforeSuccess(s)
  }

  // ---- what a transaction may do to the tables the reconciler reads ---------------------------

  /** Failed jobs stay as they are; a new job stands for an event that was still undispatched. */
  ghost predicate JobsStep(s: State, s': State) {
    && (forall j | j in s.jobs :: j in s'.jobs && s'.jobs[j] == s.jobs[j].(state := s'.jobs[j].state))
    && (forall j | j in s.jobs && s.jobs[j].state.FailedAt? :: s'.jobs[j] == s.jobs[j])
    && (forall j | j in s'.jobs && s'.jobs[j].state.FailedAt? ::
         s'.jobs[j].state.at == s'.clock || (j in s.jobs && s.jobs[j].state.FailedAt?))
    && (forall j | j in s'.jobs && j !in s.jobs :: s'.jobs[j].createdAt == s'.clock && s'.jobs[j].event in s.events
         && InsertedNow(s'.jobs[j], s.events[s'.jobs[j].event]))
  }

  predicate InsertedNow(j: Job, e: Event) {
    !e.dispatched && e.topic == j.topic && e.run == j.run && e.createdAt < j.createdAt
  }

  /** Events are only dispatched, once a job stands for them; a commit or a request is added only together
      with a batch update, a run only together with the run. */
  ghost predicate EventsStep(s: State, s': State) {
    && (forall e | e in s.events ::
        e in s'.events && s'.events[e] == s.events[e].(dispatched := s'.events[e].dispatched)
         && (s.events[e].dispatched ==> s'.events[e].dispatched))
    && (forall e | e in s.events && s'.events[e].dispatched && !s.events[e].dispatched ::
         exists j | j in s.jobs :: s.jobs[j].event == e)
    && (forall e | e in s'.events && e !in s.events :: s'.events[e].createdAt == s'.clock && !s'.events[e].dispatched
         && (EnqueuedWithUpdate(s'.events[e].topic) ==> s'.batch.updatedAt == s'.clock)
         && (s'.events[e].topic.RunTopic? ==> s'.events[e].run !in s.runs && s'.events[e].run in s'.runs))
  }

  ghost predicate RunsStep(s: State, s': State) {
    && s.runs.Keys <= s'.runs.Keys
    && forall r | r in s.runs && s.runs[r].status.RunFailed? :: s'.runs[r].status.RunFailed?
  }

  predicate Stamped(s: State, s': State) {
    s'.clock > s.clock && (s'.batch == s.batch || s'.batch.updatedAt == s'.clock)
  }

  ghost predicate TablesStep(s: State, s': State) {
    Stamped(s, s') && RunsStep(s, s') && EventsStep(s, s') && JobsStep(s, s')
  }

  predicate ReconcilerUntouched(s: State, s': State) {
    s'.ops == s.ops && s'.passes == s.passes && s'.changedBy == s.changedBy
  }

  /** Nothing supersedes a job anew unless an event with its key is added. */
  lemma UnsupersededLasts(s: State, s': State, job: nat)
    requires JobsStep(s, s') && EventsStep(s, s') && job in s.jobs && !Superseded(s.jobs, s.events, job)
    requires forall e | e in s'.events && e !in s.events ::
               !SameKey(s'.events[e].topic, s'.events[e].run, s.jobs[job].topic, s.jobs[job].run)
    ensures job in s'.jobs && !Superseded(s'.jobs, s'.events, job)
  {
    hide SameKey;
    forall other | other in s'.jobs ensures !Newer(s'.jobs, other, job) {
      if other in s.jobs {
        assert !Newer(s.jobs, other, job);
      } else {
        assert !Pending(s.events[s'.jobs[other].event], s.jobs[job]);
      }
    }
    forall e | e in s'.events ensures !Pending(s'.events[e], s'.jobs[job]) {
      if e in s.events {
        assert !Pending(s.events[e], s.jobs[job]);
      }
    }
  }

  lemma SupersededOnlySinceLasts(s: State, s': State, job: nat, since: nat)
    requires JobsStep(s, s') && EventsStep(s, s') && since <= s.clock < s'.clock
    requires job in s.jobs && SupersededOnlySince(s.jobs, s.events, job, since)
    ensures job in s'.jobs && SupersededOnlySince(s'.jobs, s'.events, job, since)
  {
    hide SameKey;
    forall other | other in s'.jobs && Newer(s'.jobs, other, job) ensures s'.jobs[other].createdAt >= since {
      if other in s.jobs {
        assert Newer(s.jobs, other, job);
      }
    }
    forall e | e in s'.events && Pending(s'.events[e], s'.jobs[job]) ensures s'.events[e].createdAt >= since {
      if e in s.events {
        assert Pending(s.events[e], s.jobs[job]);
      }
    }
  }

  lemma CurrentLasts(s: State, s': State, job: nat, since: nat)
    requires TablesStep(s, s') && since <= s.clock && Linked(s.jobs, s.events, s.runs)
    requires Current(s.jobs, s.events, s.batch.updatedAt, job, since) && s.jobs[job].state.at <= s.clock
    ensures Current(s'.jobs, s'.events, s'.batch.updatedAt, job, since)
  {
    hide Superseded, SupersededOnlySince;
    SupersededOnlySinceLasts(s, s', job, since);
    var topic := s.jobs[job].topic;
    if topic.RunTopic? || (EnqueuedWithUpdate(topic) && s'.batch.updatedAt <= s.jobs[job].state.at) {
      assert s.jobs[job].event in s.events;
      UnsupersededLasts(s, s', job);
    }
  }

  lemma TablesKeepLinks(s: State, s': State)
    requires TablesStep(s, s') && Linked(s.jobs, s.events, s.runs)
    ensures Linked(s'.jobs, s'.events, s'.runs)
  {
    forall e | e in s'.events && s'.events[e].dispatched ensures exists j | j in s'.jobs :: s'.jobs[j].event == e {
      var j :| j in s.jobs && s.jobs[j].event == e;
      assert s'.jobs[j].event == e;
    }
  }

  lemma SpentLasts(s: State, s': State, job: nat)
    requires TablesStep(s, s') && Timely(s) && Spent(s.jobs, s.runs, s.batch.updatedAt, job)
    ensures Spent(s'.jobs, s'.runs, s'.batch.updatedAt, job)
  {
    hide EventsStep;
  }

  lemma TablesKeepTimely(s: State, s': State)
    requires TablesStep(s, s') && ReconcilerUntouched(s, s') && Timely(s)
    ensures Timely(s')
  {
    hide RunsStep, InsertedNow;
    assert forall e | e in s'.events :: s'.events[e].createdAt <= s'.clock;
  }

  lemma TablesKeepPasses(s: State, s': State)
    requires JobsStep(s, s') && ReconcilerUntouched(s, s') && PassesHoldFailedJobs(s)
    ensures PassesHoldFailedJobs(s')
  {
  }

  lemma TablesKeepInv(s: State, s': State)
    requires TablesStep(s, s') && ReconcilerUntouched(s, s') && Inv(s)
    ensures Inv(s')
  {
    hide JobsStep, EventsStep, RunsStep, Current, Spent, Linked;
    TablesKeepTimely(s, s');
    TablesKeepLinks(s, s');
    TablesKeepPasses(s, s');
    forall w | w in s'.passes && s'.passes[w].phase.Cleared?
      ensures Current(s'.jobs, s'.events, s'.batch.updatedAt, s'.passes[w].phase.job, s'.passes[w].phase.since)
    {
      CurrentLasts(s, s', s.passes[w].phase.job, s.passes[w].phase.since);
    }
    forall j | j in s'.changedBy
      ensures Spent(s'.jobs, s'.runs, s'.batch.updatedAt, j)
    {
      SpentLasts(s, s', j);
    }
  }

  // ---- steps outside the reconciler ----------------------------------------------------------

  lemma RowsAreStamped(b: Batch, expected: nat, analyzed: nat, parsed: nat, code: Code, run: RunStatus, now: nat)
    ensures var p := PreflightBatch(b, expected, analyzed, parsed, now); p == b || p.updatedAt == now
    ensures PreflightBatch(b, expected, analyzed, parsed, now).status.Committing? && !b.status.Committing?
            ==> PreflightBatch(b, expected, analyzed, parsed, now).updatedAt == now
    ensures CancelBatch(b, now) == b || CancelBatch(b, now).updatedAt == now
    ensures RemoveAllBatch(b, now) == b || RemoveAllBatch(b, now).updatedAt == now
    ensures MarkCommitFailedBatch(b, code, now) == b || MarkCommitFailedBatch(b, code, now).updatedAt == now
    ensures MarkCalculationFailedBatch(b, code, now) == b || MarkCalculationFailedBatch(b, code, now).updatedAt == now
    ensures MarkPublishFailedBatch(b, now) == b || MarkPublishFailedBatch(b, now).updatedAt == now
    ensures AttachRunBatch(b, run, now) == b || AttachRunBatch(b, run, now).updatedAt == now
  {
  }

  /** The batch row, the runs, and at most one event added. */
  predicate Enqueues(s: State, s': State, event: nat, topic: Topic, run: nat) {
    && s'.jobs == s.jobs && ReconcilerUntouched(s, s') && Stamped(s, s')
    && s'.events == AddEvent(s.events, event, topic, run, s'.clock)
    && (EnqueuedWithUpdate(topic) ==> s'.batch.updatedAt == s'.clock)
    && (topic.RunTopic? ==> run !in s.runs && run in s'.runs)
  }

  predicate RowOnly(s: State, s': State) {
    && s'.jobs == s.jobs && ReconcilerUntouched(s, s') && Stamped(s, s') && s'.events == s.events
  }

  lemma RowOnlyIsTablesStep(s: State, s': State)
    requires RowOnly(s, s') && RunsStep(s, s')
    ensures TablesStep(s, s') && ReconcilerUntouched(s, s')
  {
    hide RunsStep;
  }

  lemma EnqueuesIsTablesStep(s: State, s': State, event: nat, topic: Topic, run: nat)
    requires Enqueues(s, s', event, topic, run) && RunsStep(s, s')
    ensures TablesStep(s, s') && ReconcilerUntouched(s, s')
  {
    hide RunsStep;
  }

  lemma UploadIsTablesStep(s: State, expected: nat, analyzed: nat, parsed: nat, event: nat, now: nat)
    requires now > s.clock
    ensures var s' := PreflightOf(s, expected, analyzed, parsed, event, now).(clock := now);
            TablesStep(s, s') && ReconcilerUntouched(s, s')
  {
    hide TablesStep, PreflightBatch;
    RowsAreStamped(s.batch, expected, analyzed, parsed, HardIncomplete, RunQueued, now);
    var s' := PreflightOf(s, expected, analyzed, parsed, event, now).(clock := now);
    if s'.batch.status.Committing? && !s.batch.status.Committing? {
      EnqueuesIsTablesStep(s, s', event, CommitTopic, 0);
    } else {
      RowOnlyIsTablesStep(s, s');
    }
  }

  lemma ConfirmIsTablesStep(s: State, pendingHard: nat, event: nat, now: nat)
    requires now > s.clock
    ensures var s' := ConfirmOf(s, pendingHard, event, now).(clock := now);
            TablesStep(s, s') && ReconcilerUntouched(s, s')
  {
    hide TablesStep;
    var s' := ConfirmOf(s, pendingHard, event, now).(clock := now);
    if AwaitsHardExclusion(s.batch) && pendingHard == 0 {
      EnqueuesIsTablesStep(s, s', event, RequestTopic, 0);
    } else if AwaitsCommit(s.batch) && !AwaitsHardExclusion(s.batch) {
      EnqueuesIsTablesStep(s, s', event, CommitTopic, 0);
    } else {
      RowOnlyIsTablesStep(s, s');
    }
  }

  lemma CommitIsTablesStep(s: State, excluded: nat, event: nat, now: nat)
    requires now > s.clock
    ensures var s' := CommitOf(s, excluded, event, now).(clock := now);
            TablesStep(s, s') && ReconcilerUntouched(s, s')
  {
    hide TablesStep;
    var s' := CommitOf(s, excluded, event, now).(clock := now);
    if s.batch.status.Committing? {
      EnqueuesIsTablesStep(s, s', event, RequestTopic, 0);
    } else {
      RowOnlyIsTablesStep(s, s');
    }
  }

  lemma RequestRunIsTablesStep(s: State, run: nat, event: nat, now: nat)
    requires now > s.clock
    ensures var s' := RequestRunOf(s, run, event, now).(clock := now);
            TablesStep(s, s') && ReconcilerUntouched(s, s')
  {
    hide TablesStep;
    var s' := RequestRunOf(s, run, event, now).(clock := now);
    if run in s.runs {
      RowOnlyIsTablesStep(s, s');
    } else {
      EnqueuesIsTablesStep(s, s', event, RunTopic, run);
    }
  }

  lemma CompleteRunIsTablesStep(s: State, run: nat, event: nat, now: nat)
    requires now > s.clock
    ensures var s' := CompleteRunOf(s, run, event, now).(clock := now);
            TablesStep(s, s') && ReconcilerUntouched(s, s')
  {
    hide TablesStep;
    var s' := CompleteRunOf(s, run, event, now).(clock := now);
    if run in s.runs && (Open(s.runs[run].status) || s.runs[run].status.RunReady?) {
      EnqueuesIsTablesStep(s, s', event, PublishTopic, run);
    } else {
      RowOnlyIsTablesStep(s, s');
    }
  }

  lemma RunFailureIsTablesStep(s: State, run: nat, code: Code, now: nat)
    requires now > s.clock
    ensures var s' := MarkRunFailedOf(s, run, code, now).(clock := now);
            TablesStep(s, s') && ReconcilerUntouched(s, s') && s'.jobs == s.jobs && s'.events == s.events
  {
    hide TablesStep, MarkCalculationFailedBatch;
    RowsAreStamped(s.batch, 0, 0, 0, code, RunQueued, now);
    RowOnlyIsTablesStep(s, MarkRunFailedOf(s, run, code, now).(clock := now));
  }

  lemma RowOnlySteps(s: State, step: Step, s': State)
    requires Next(s, step, s')
    requires step.CancelUpload? || step.RemoveAllFiles? || step.MarkCommitFailed? || step.MarkRequestFailed?
             || step.MarkPublishFailed? || step.OtherBatch?
    ensures RowOnly(s, s') && s'.runs == s.runs
  {
    hide CancelBatch, RemoveAllBatch, MarkCommitFailedBatch, MarkCalculationFailedBatch, MarkPublishFailedBatch;
    var code := if step.MarkCommitFailed? || step.MarkRequestFailed? then step.code else HardIncomplete;
    RowsAreStamped(s.batch, 0, 0, 0, code, RunQueued, s'.clock);
  }

  lemma AttachIsRowOnly(s: State, run: nat, now: nat)
    requires now > s.clock
    ensures var s' := AttachRunOf(s, run, now).(clock := now); RowOnly(s, s') && s'.runs == s.runs
  {
    hide AttachRunBatch;
    RowsAreStamped(s.batch, 0, 0, 0, HardIncomplete, if run in s.runs then s.runs[run].status else RunQueued, now);
  }

  lemma ResultSteps(s: State, step: Step, s': State)
    requires Next(s, step, s')
    requires step.AttachRun? || step.StartPublish? || step.FinishPublish? || step.InsertSnapshot?
    ensures RowOnly(s, s') && s'.runs == s.runs
  {
    hide AttachRunOf;
    if step.AttachRun? {
      AttachIsRowOnly(s, step.run, s'.clock);
    }
  }

  lemma BossInsertIsTablesStep(s: State, event: nat, job: nat, now: nat)
    requires Enabled(s, BossInsert(event, job)) && now > s.clock && s.events[event].createdAt <= s.clock
    ensures var s' := s.(jobs := s.jobs[job := Job(s.events[event].topic, s.events[event].run, event, now, Active)],
                         clock := now);
            TablesStep(s, s') && ReconcilerUntouched(s, s')
  {
  }

  lemma DispatchIsTablesStep(s: State, event: nat, now: nat)
    requires event in s.events && now > s.clock && exists j | j in s.jobs :: s.jobs[j].event == event
    ensures var s' := s.(events := s.events[event := s.events[event].(dispatched := true)], clock := now);
            TablesStep(s, s') && ReconcilerUntouched(s, s')
  {
  }

  lemma JobEndIsTablesStep(s: State, job: nat, end: JobState, now: nat)
    requires job in s.jobs && s.jobs[job].state.Active? && now > s.clock
    requires end == FailedAt(now) || end == Finished
    ensures var s' := s.(jobs := s.jobs[job := s.jobs[job].(state := end)], clock := now);
            TablesStep(s, s') && ReconcilerUntouched(s, s')
  {
  }

  predicate ReconcilerStep(step: Step) {
    step.SelectJobs? || step.CheckJob? || step.ProjectJob? || step.RecordJob? || step.GiveUpJob?
  }

  lemma OtherSteps(s: State, step: Step, s': State)
    requires Next(s, step, s') && !ReconcilerStep(step) && Timely(s)
    ensures TablesStep(s, s') && ReconcilerUntouched(s, s')
  {
    hide TablesStep, RowOnly, PreflightOf, ConfirmOf, CommitOf, RequestRunOf, CompleteRunOf, MarkRunFailedOf,
      AttachRunOf, StartPublishOf, FinishPublishOf, CancelBatch, RemoveAllBatch, MarkCommitFailedBatch,
      MarkCalculationFailedBatch, MarkPublishFailedBatch, ReconcilerUntouched;
    var now := s'.clock;
    match step
    case Preflight(expected, analyzed, parsed, event) => UploadIsTablesStep(s, expected, analyzed, parsed, event, now);
    case Confirm(pendingHard, event) => ConfirmIsTablesStep(s, pendingHard, event, now);
    case Commit(excluded, event) => CommitIsTablesStep(s, excluded, event, now);
    case RequestRun(_, run, event) => RequestRunIsTablesStep(s, run, event, now);
    case CompleteRun(run, event) => CompleteRunIsTablesStep(s, run, event, now);
    case MarkRunFailed(run, code) => RunFailureIsTablesStep(s, run, code, now);
    case BossInsert(event, job) => BossInsertIsTablesStep(s, event, job, now);
    case MarkDispatched(event) => DispatchIsTablesStep(s, event, now);
    case FailJob(job) => JobEndIsTablesStep(s, job, FailedAt(now), now);
    case FinishJob(job) => JobEndIsTablesStep(s, job, Finished, now);
    case _ =>
      if step.AttachRun? || step.StartPublish? || step.FinishPublish? || step.InsertSnapshot? {
        ResultSteps(s, step, s');
      } else {
        RowOnlySteps(s, step, s');
      }
      RowOnlyIsTablesStep(s, s');
  }

  // ---- steps of the reconciler ---------------------------------------------------------------

  lemma SelectKeepsInv(s: State, worker: nat, selected: set<nat>, now: nat)
    requires Inv(s) && Enabled(s, SelectJobs(worker, selected)) && now > s.clock
    ensures Inv(s.(passes := s.passes[worker := Pass(now, selected, Idle)], clock := now))
  {
    hide Current, Spent, Linked;
  }

  lemma CheckKeepsInv(s: State, worker: nat, job: nat, now: nat)
    requires Inv(s) && Enabled(s, CheckJob(worker, job)) && now > s.clock
    ensures Inv(CheckOf(s, worker, job, now).(clock := now))
  {
    hide Current, Spent, Superseded, Linked;
    if !Superseded(s.jobs, s.events, job) {
      ClearedIsCurrent(s, job, now);
    }
  }

  lemma ClearedIsCurrent(s: State, job: nat, now: nat)
    requires job in s.jobs && s.jobs[job].state.FailedAt? && !Superseded(s.jobs, s.events, job)
    ensures Current(s.jobs, s.events, s.batch.updatedAt, job, now)
  {
  }

  /** Ending the work on a job leaves everything but its operation record as it was. */
  lemma DoneKeepsInv(s: State, s': State, worker: nat, job: nat)
    requires Inv(s) && worker in s.passes && s'.clock > s.clock
    requires s' == s.(clock := s'.clock, ops := s'.ops, passes := s.passes[worker := DonePass(s.passes[worker], job)])
    ensures Timely(s') && Linked(s'.jobs, s'.events, s'.runs) && PassesHoldFailedJobs(s') && ClearedMeansCurrent(s')
            && SpentJobs(s')
  {
    hide Current, Spent, Linked;
  }

  function DonePass(pass: Pass, job: nat): Pass {
    pass.(remaining := pass.remaining - {job}, phase := Idle)
  }

  lemma RecordKeepsInv(s: State, worker: nat, now: nat)
    requires Inv(s) && Enabled(s, RecordJob(worker)) && now > s.clock
    ensures Inv(RecordOf(s, worker, now).(clock := now))
  {
    hide Linked, PassesHoldFailedJobs, ClearedMeansCurrent, SpentJobs;
    DoneKeepsInv(s, RecordOf(s, worker, now).(clock := now), worker, s.passes[worker].phase.job);
  }

  lemma GiveUpKeepsInv(s: State, worker: nat, job: nat, now: nat)
    requires Inv(s) && Enabled(s, GiveUpJob(worker, job)) && now > s.clock
    ensures Inv(GiveUpOf(s, worker, job).(clock := now))
  {
    hide Timely, Linked, PassesHoldFailedJobs, ClearedMeansCurrent, SpentJobs;
    DoneKeepsInv(s, GiveUpOf(s, worker, job).(clock := now), worker, job);
  }

  /** When a projection changes the batch row, by topic. */
  lemma ProjectedRow(b: Batch, latest: Option<Run>, published: bool, completed: nat, now: nat)
    ensures var p := ProjectCommitBatch(b, completed, now);
            (p == b || p.updatedAt == now) && (p != b ==> b.updatedAt <= completed)
    ensures var p := ProjectRequestBatch(b, latest, completed, now);
            (p == b || p.updatedAt == now) && (p != b ==> b.updatedAt <= completed)
    ensures var p := ProjectPublishBatch(b, published, completed, now);
            (p == b || p.updatedAt == now) && (p != b ==> b.updatedAt <= completed)
  {
  }

  lemma ProjectionEffect(s: State, job: nat, now: nat)
    requires job in s.jobs && s.jobs[job].state.FailedAt? && s.batch.updatedAt < now && s.clock < now
    ensures var p := ProjectionOf(s, s.jobs[job], now).(clock := now);
            TablesStep(s, p) && ReconcilerUntouched(s, p) && p.jobs == s.jobs && p.events == s.events
    ensures var p := ProjectionOf(s, s.jobs[job], now);
            p.batch != s.batch ==>
              if s.jobs[job].topic.RunTopic? then s.jobs[job].run in p.runs && p.runs[s.jobs[job].run].status.RunFailed?
              else s.batch.updatedAt <= s.jobs[job].state.at && p.batch.updatedAt == now
    ensures s.jobs[job].topic.RunTopic? ==>
              (ProjectionOf(s, s.jobs[job], now).batch != s.batch <==>
               s.jobs[job].run in s.runs && Open(s.runs[s.jobs[job].run].status) && Requestable(s.batch.status))
  {
    hide TablesStep, ProjectCommitBatch, ProjectRequestBatch, ProjectPublishBatch;
    var j := s.jobs[job];
    var p := ProjectionOf(s, j, now).(clock := now);
    if j.topic.RunTopic? {
      RunFailureIsTablesStep(s, j.run, CalculationFailure("CALCULATION_FAILED"), now);
    } else {
      ProjectedRow(s.batch, Latest(s), j.run in s.snapshots, j.state.at, now);
      RowOnlyIsTablesStep(s, p);
    }
  }

  /** Nothing spent is projected into the batch a second time. */
  lemma SpentJobChangesNothing(s: State, job: nat, now: nat)
    requires Spent(s.jobs, s.runs, s.batch.updatedAt, job) && s.batch.updatedAt < now && s.clock < now
    ensures ProjectionOf(s, s.jobs[job], now).batch == s.batch
  {
    hide ProjectionOf, TablesStep;
    ProjectionEffect(s, job, now);
  }

  lemma ProjectKeepsInv(s: State, worker: nat, now: nat)
    requires Inv(s) && Enabled(s, ProjectJob(worker)) && now > s.clock
    ensures Inv(ProjectOf(s, worker, now).(clock := now))
  {
    hide ProjectionOf, TablesStep, ReconcilerUntouched;
    var job := s.passes[worker].phase.job;
    var p := ProjectionOf(s, s.jobs[job], now).(clock := now);
    ProjectionEffect(s, job, now);
    TablesKeepInv(s, p);
    if p.batch != s.batch && job in s.changedBy {
      SpentJobChangesNothing(s, job, now);
    }
    PassDecided(s, p, worker, ProjectOf(s, worker, now).(clock := now));
  }

  lemma PassDecided(s: State, p: State, worker: nat, s': State)
    requires Inv(p) && ReconcilerUntouched(s, p) && worker in s.passes && !s.passes[worker].phase.Idle?
    requires var job := s.passes[worker].phase.job;
             s' == p.(passes := s.passes[worker := s.passes[worker].(phase := Decided(job))], changedBy := s'.changedBy)
             && (s'.changedBy == s.changedBy
                 || (s'.changedBy == s.changedBy + multiset{job} && job !in s.changedBy
                     && Spent(p.jobs, p.runs, p.batch.updatedAt, job)))
    ensures Inv(s')
  {
    hide Current, Spent, Linked;
  }

  lemma PassStepKeepsInv(s: State, step: Step, s': State)
    requires Inv(s) && Next(s, step, s') && ReconcilerStep(step)
    ensures Inv(s')
  {
    hide Inv, CheckOf, ProjectOf, RecordOf, GiveUpOf;
    var now := s'.clock;
    if step.SelectJobs? {
      SelectKeepsInv(s, step.worker, step.selected, now);
    } else if step.CheckJob? {
      CheckKeepsInv(s, step.worker, step.job, now);
    } else if step.ProjectJob? {
      ProjectKeepsInv(s, step.worker, now);
    } else if step.RecordJob? {
      RecordKeepsInv(s, step.worker, now);
    } else {
      GiveUpKeepsInv(s, step.worker, step.job, now);
    }
  }

  lemma StepKeepsInv(s: State, step: Step, s': State)
    requires Inv(s) && Next(s, step, s')
    ensures Inv(s')
  {
    hide Inv, Timely, TablesStep, ReconcilerUntouched, Next;
    if ReconcilerStep(step) {
      PassStepKeepsInv(s, step, s');
    } else {
      InvIsTimely(s);
      OtherSteps(s, step, s');
      TablesKeepInv(s, s');
    }
  }

  lemma InvIsTimely(s: State)
    requires Inv(s)
    ensures Timely(s)
  {
  }

  lemma {:induction false} ReachableInv(states: seq<State>, steps: seq<Step>, i: nat)
    requires Execution(states, steps) && i < |states|
    ensures Inv(states[i])
  {
    hide Next;
    if i > 0 {
      ReachableInv(states, steps, i - 1);
      StepKeepsInv(states[i - 1], steps[i - 1], states[i]);
    }
  }

  // ---- main results --------------------------------------------------------------------------

  /** Stale failures never win. When a projection changes the batch, its job failed no earlier than the last
      update (the failure of a calculation run aside), nothing older than the supersession query supersedes
      it, and except for a publication nothing supersedes it at all, although the query ran in
      an earlier transaction. PublicationSupersededExactly says when a publication is. */
  lemma StaleNeverWins(states: seq<State>, steps: seq<Step>, i: nat)
    requires Execution(states, steps) && i < |steps|
    requires steps[i].ProjectJob? && states[i + 1].batch != states[i].batch
    ensures Enabled(states[i], steps[i])
    ensures var s := states[i];
            var phase := s.passes[steps[i].worker].phase;
            && (!s.jobs[phase.job].topic.RunTopic? ==> s.batch.updatedAt <= s.jobs[phase.job].state.at)
            && SupersededOnlySince(s.jobs, s.events, phase.job, phase.since)
            && (!s.jobs[phase.job].topic.PublishTopic? ==> !Superseded(s.jobs, s.events, phase.job))
  {
    hide ProjectionOf, TablesStep, ReconcilerUntouched, Superseded, SupersededOnlySince;
    var s := states[i];
    ReachableInv(states, steps, i);
    assert Next(s, steps[i], states[i + 1]);
    ProjectionEffect(s, s.passes[steps[i].worker].phase.job, states[i + 1].clock);
  }

  /** A run completed, and its publication was not yet enqueued. */
  ghost predicate EnqueuesPublication(s: State, step: Step, s': State) {
    step.CompleteRun? && s'.events != s.events
  }

  lemma RequestsEnqueueNoPublication(s: State, step: Step, s': State, e: nat)
    requires Next(s, step, s') && !step.CompleteRun? && !ReconcilerStep(step) && e in s'.events && e !in s.events
    ensures !s'.events[e].topic.PublishTopic?
  {
    hide PreflightBatch, ConfirmBatch, CommitBatch, CancelBatch, RemoveAllBatch, MarkCommitFailedBatch,
      MarkCalculationFailedBatch, MarkPublishFailedBatch, AttachRunBatch, AwaitsHardExclusion, AwaitsCommit, KeyTaken;
  }

  /** Every step, those of the reconciler included, treats jobs and events like this. */
  lemma AnyStep(s: State, step: Step, s': State)
    requires Next(s, step, s') && Inv(s)
    ensures s'.clock > s.clock && JobsStep(s, s') && EventsStep(s, s')
    ensures ReconcilerStep(step) ==> s'.jobs == s.jobs && s'.events == s.events
  {
    if ReconcilerStep(step) {
      assert s'.jobs == s.jobs && s'.events == s.events by { PassStepsReadOnly(s, step, s'); }
    } else {
      hide Inv, JobsStep, EventsStep, RunsStep, Timely;
      InvIsTimely(s);
      OtherSteps(s, step, s');
    }
  }

  lemma PassStepsReadOnly(s: State, step: Step, s': State)
    requires Next(s, step, s') && ReconcilerStep(step)
    ensures s'.jobs == s.jobs && s'.events == s.events
  {
    hide ProjectionOf, Superseded;
    if step.ProjectJob? {
      ProjectionKeepsJobs(s, s.jobs[s.passes[step.worker].phase.job], s'.clock);
    }
  }

  /** Jobs and events stay, up to the state of a job and the dispatch of an event. */
  ghost predicate Persist(s: State, s': State) {
    && s.clock <= s'.clock
    && (forall j | j in s.jobs :: j in s'.jobs && s'.jobs[j] == s.jobs[j].(state := s'.jobs[j].state))
    && (forall e | e in s.events ::
        e in s'.events && s'.events[e] == s.events[e].(dispatched := s'.events[e].dispatched))
  }

  lemma {:induction false} TablesPersist(states: seq<State>, steps: seq<Step>, i: nat, k: nat)
    requires Execution(states, steps) && i <= k < |states|
    ensures Persist(states[i], states[k])
    decreases k
  {
    hide Next, Init, Inv;
    if i < k {
      TablesPersist(states, steps, i, k - 1);
      ReachableInv(states, steps, k - 1);
      AnyStep(states[k - 1], steps[k - 1], states[k]);
    }
  }

  /** A publication that nothing superseded stays so while no publication is enqueued. */
  lemma {:induction false} PublicationStaysCurrent(states: seq<State>, steps: seq<Step>, c: nat, i: nat, job: nat)
    requires Execution(states, steps) && c <= i < |states| && job in states[c].jobs
             && states[c].jobs[job].topic.PublishTopic?
    requires !Superseded(states[c].jobs, states[c].events, job)
    requires forall k | c <= k < i :: !EnqueuesPublication(states[k], steps[k], states[k + 1])
    ensures job in states[i].jobs && !Superseded(states[i].jobs, states[i].events, job)
    decreases i
  {
    hide Next, Init, Inv, Superseded, JobsStep, EventsStep;
    if c < i {
      var s, s' := states[i - 1], states[i];
      PublicationStaysCurrent(states, steps, c, i - 1, job);
      TablesPersist(states, steps, c, i - 1);
      ReachableInv(states, steps, i - 1);
      AnyStep(s, steps[i - 1], s');
      assert !EnqueuesPublication(s, steps[i - 1], states[i - 1 + 1]);
      forall e | e in s'.events && e !in s.events ensures !s'.events[e].topic.PublishTopic? {
        if !ReconcilerStep(steps[i - 1]) && !steps[i - 1].CompleteRun? {
          RequestsEnqueueNoPublication(s, steps[i - 1], s', e);
        }
      }
      UnsupersededLasts(s, s', job);
    }
  }

  lemma AddedPublication(s: State, step: Step, s': State) returns (e: nat)
    requires Next(s, step, s') && EnqueuesPublication(s, step, s')
    ensures e in s'.events && s'.events[e].topic.PublishTopic? && s'.events[e].createdAt == s'.clock
  {
    e := step.event;
  }

  /** A publication enqueued after a job was inserted supersedes it for good: undispatched itself, and once
      dispatched through a job of its own. */
  lemma EnqueuedPublicationSupersedes(states: seq<State>, steps: seq<Step>, c: nat, k: nat, i: nat, job: nat)
    requires Execution(states, steps) && c <= k < i < |states| && job in states[c].jobs
             && states[c].jobs[job].topic.PublishTopic?
    requires EnqueuesPublication(states[k], steps[k], states[k + 1])
    ensures job in states[i].jobs && Superseded(states[i].jobs, states[i].events, job)
  {
    hide Init, PassesHoldFailedJobs, ClearedMeansCurrent, SpentJobs, SelectedBeforeSuccess;
    assert Next(states[k], steps[k], states[k + 1]);
    hide Next;
    var e := AddedPublication(states[k], steps[k], states[k + 1]);
    TablesPersist(states, steps, c, k);
    TablesPersist(states, steps, c, i);
    TablesPersist(states, steps, k + 1, i);
    ReachableInv(states, steps, c);
    ReachableInv(states, steps, i);
    var s := states[i];
    assert s.events[e].createdAt > states[c].clock >= s.jobs[job].createdAt;
    if s.events[e].dispatched {
      var other :| other in s.jobs && s.jobs[other].event == e;
      assert InsertedFor(s.jobs[other], s.events[e]);
      assert Newer(s.jobs, other, job);
    } else {
      assert Pending(s.events[e], s.jobs[job]);
    }
  }

  /** When a failed publication is superseded by the time it is projected: exactly when, since the supersession
      query let it through, some run of the batch completed and enqueued its publication. */
  lemma PublicationSupersededExactly(states: seq<State>, steps: seq<Step>, c: nat, i: nat, worker: nat, job: nat)
    requires Execution(states, steps) && c < i < |steps|
    requires steps[c] == CheckJob(worker, job) && steps[i] == ProjectJob(worker)
    requires Enabled(states[c], steps[c]) && Enabled(states[i], steps[i])
    requires states[i].passes[worker].phase == Cleared(job, states[c + 1].clock)
    requires states[c].jobs[job].topic.PublishTopic? && !Superseded(states[c].jobs, states[c].events, job)
    ensures job in states[i].jobs
    ensures Superseded(states[i].jobs, states[i].events, job) <==>
              exists k | c < k < i :: EnqueuesPublication(states[k], steps[k], states[k + 1])
  {
    hide Init, Inv, Effect, Superseded, EnqueuesPublication;
    TablesPersist(states, steps, c, i);
    assert !EnqueuesPublication(states[c], steps[c], states[c + 1]) by {
      ChecksEnqueueNothing(states[c], steps[c], states[c + 1]);
    }
    if k :| c < k < i && EnqueuesPublication(states[k], steps[k], states[k + 1]) {
      EnqueuedPublicationSupersedes(states, steps, c, k, i, job);
    } else {
      PublicationStaysCurrent(states, steps, c, i, job);
    }
  }

  lemma ChecksEnqueueNothing(s: State, step: Step, s': State)
    requires step.CheckJob?
    ensures !EnqueuesPublication(s, step, s')
  {
  }

  /** The exception, exactly: a projection overwrites an update younger than the failure it reports if and
      only if it reports a calculation run that is still open while the batch is in a requestable status. */
  lemma LateProjectionExactly(states: seq<State>, steps: seq<Step>, i: nat)
    requires Execution(states, steps) && i < |steps| && steps[i].ProjectJob?
    requires Enabled(states[i], steps[i])
    requires var s := states[i]; s.batch.updatedAt > s.jobs[s.passes[steps[i].worker].phase.job].state.at
    ensures var s := states[i];
            var job := s.jobs[s.passes[steps[i].worker].phase.job];
            states[i + 1].batch != s.batch <==>
              job.topic.RunTopic? && job.run in s.runs && Open(s.runs[job.run].status) && Requestable(s.batch.status)
  {
    hide ProjectionOf, TablesStep, ReconcilerUntouched;
    var s := states[i];
    ReachableInv(states, steps, i);
    assert Next(s, steps[i], states[i + 1]);
    ProjectionEffect(s, s.passes[steps[i].worker].phase.job, states[i + 1].clock);
  }

  lemma RunFailureKeepsJobs(s: State, run: nat, code: Code, now: nat)
    ensures var p := MarkRunFailedOf(s, run, code, now); p.jobs == s.jobs && p.ops == s.ops && p.events == s.events
  {
    hide MarkCalculationFailedBatch;
  }

  lemma ProjectionKeepsJobs(s: State, job: Job, now: nat)
    requires job.state.FailedAt?
    ensures var p := ProjectionOf(s, job, now); p.jobs == s.jobs && p.ops == s.ops && p.events == s.events
  {
    hide ProjectCommitBatch, ProjectRequestBatch, ProjectPublishBatch, MarkRunFailedOf, Latest;
    RunFailureKeepsJobs(s, job.run, CalculationFailure("CALCULATION_FAILED"), now);
  }

  lemma HistoryStep(s: State, step: Step, s': State)
    requires Next(s, step, s') && Timely(s)
    ensures s.changedBy <= s'.changedBy
    ensures step.ProjectJob? && s'.batch != s.batch ==>
              s'.changedBy == s.changedBy + multiset{s.passes[step.worker].phase.job}
    ensures forall j | HasSucceeded(s, j) :: HasSucceeded(s', j) && s'.ops[j] == s.ops[j]
  {
    hide ProjectionOf, TablesStep;
    if !ReconcilerStep(step) {
      OtherSteps(s, step, s');
    } else if step.ProjectJob? {
      ProjectionKeepsJobs(s, s.jobs[s.passes[step.worker].phase.job], s'.clock);
    }
  }

  lemma {:induction false} HistoryGrows(states: seq<State>, steps: seq<Step>, i: nat, k: nat)
    requires Execution(states, steps) && i <= k < |states|
    ensures states[i].changedBy <= states[k].changedBy
    ensures forall j | HasSucceeded(states[i], j) :: HasSucceeded(states[k], j) && states[k].ops[j] == states[i].ops[j]
    decreases k
  {
    hide Next, Init, HasSucceeded, PassesHoldFailedJobs, ClearedMeansCurrent, SpentJobs, SelectedBeforeSuccess, Linked;
    if i < k {
      HistoryGrows(states, steps, i, k - 1);
      ReachableInv(states, steps, k - 1);
      HistoryStep(states[k - 1], steps[k - 1], states[k]);
    }
  }

  /** Over a whole run, and with any number of reconcilers, a failed job changes the batch at most once. */
  lemma EachFailureChangesTheBatchOnce(states: seq<State>, steps: seq<Step>, i: nat, k: nat)
    requires Execution(states, steps) && i < k < |steps|
    requires steps[i].ProjectJob? && Enabled(states[i], steps[i]) && states[i + 1].batch != states[i].batch
    requires steps[k].ProjectJob? && Enabled(states[k], steps[k]) && states[k + 1].batch != states[k].batch
    ensures states[i].passes[steps[i].worker].phase.job != states[k].passes[steps[k].worker].phase.job
  {
    hide Effect, Init, Timely, PassesHoldFailedJobs, ClearedMeansCurrent, SelectedBeforeSuccess, Spent, Linked;
    var job := states[i].passes[steps[i].worker].phase.job;
    ReachableInv(states, steps, i);
    ReachableInv(states, steps, k);
    HistoryStep(states[i], steps[i], states[i + 1]);
    HistoryGrows(states, steps, i + 1, k);
    HistoryStep(states[k], steps[k], states[k + 1]);
    ReachableInv(states, steps, k + 1);
    assert states[k].changedBy[job] >= states[i + 1].changedBy[job] >= 1;
  }

  /** SUCCEEDED is absorbing, and only a pass that had already selected the job projects it again. */
  lemma ProjectedAgainOnlyByAnOlderPass(states: seq<State>, steps: seq<Step>, i: nat, k: nat, job: nat)
    requires Execution(states, steps) && i <= k < |steps| && HasSucceeded(states[i], job)
    requires steps[k].ProjectJob? && Enabled(states[k], steps[k]) && states[k].passes[steps[k].worker].phase.job == job
    ensures HasSucceeded(states[k], job) && states[k].ops[job] == states[i].ops[job]
    ensures states[k].passes[steps[k].worker].selectedAt < states[i].ops[job].at
  {
    hide Next, Init, Current, Spent;
    HistoryGrows(states, steps, i, k);
    ReachableInv(states, steps, k);
  }

  predicate OnlyWorker(step: Step, worker: nat) {
    ReconcilerStep(step) ==> step.worker == worker
  }

  ghost predicate NothingSucceededSelected(s: State, worker: nat) {
    s.passes.Keys <= {worker}
    && forall j | worker in s.passes && j in s.passes[worker].remaining :: !HasSucceeded(s, j)
  }

  lemma OneWorkerStep(s: State, step: Step, s': State, worker: nat)
    requires Next(s, step, s') && OnlyWorker(step, worker) && NothingSucceededSelected(s, worker) && Timely(s)
    ensures NothingSucceededSelected(s', worker)
  {
    hide ProjectionOf, TablesStep, Superseded;
    if !ReconcilerStep(step) {
      OtherSteps(s, step, s');
    } else if step.ProjectJob? {
      ProjectionKeepsJobs(s, s.jobs[s.passes[step.worker].phase.job], s'.clock);
    }
  }

  lemma {:induction false} OneWorkerSelectsNoSuccess(states: seq<State>, steps: seq<Step>, i: nat, worker: nat)
    requires Execution(states, steps) && i < |states|
    requires forall k | 0 <= k < |steps| :: OnlyWorker(steps[k], worker)
    ensures NothingSucceededSelected(states[i], worker)
  {
    hide Next, OnlyWorker, Inv, Timely;
    if i > 0 {
      OneWorkerSelectsNoSuccess(states, steps, i - 1, worker);
      ReachableInv(states, steps, i - 1);
      InvIsTimely(states[i - 1]);
      OneWorkerStep(states[i - 1], steps[i - 1], states[i], worker);
    }
  }

  /** With one reconciling process no job is projected after its reconciliation succeeded. */
  lemma OneWorkerNeverProjectsAgain(states: seq<State>, steps: seq<Step>, i: nat, k: nat, job: nat, worker: nat)
    requires Execution(states, steps) && i <= k < |steps| && HasSucceeded(states[i], job)
    requires forall n | 0 <= n < |steps| :: OnlyWorker(steps[n], worker)
    requires steps[k].ProjectJob? && Enabled(states[k], steps[k])
    ensures states[k].passes[steps[k].worker].phase.job != job
  {
    hide Next, Init, Current, Spent, Timely;
    HistoryGrows(states, steps, i, k);
    ReachableInv(states, steps, k);
    OneWorkerSelectsNoSuccess(states, steps, k, worker);
    assert OnlyWorker(steps[k], worker);
  }

  // ---- one job per key -----------------------------------------------------------------------

  /** The jobs and events the supersession query compares: one queue and one business key, which the calculation
      queue takes from the run and the others from the batch. */
  predicate OfKey(topic: Topic, run: nat, otherTopic: Topic, otherRun: nat) {
    otherTopic == topic && (topic != RunTopic || otherRun == run)
  }

  ghost function JobsOf(jobs: map<nat, Job>, topic: Topic, run: nat): set<nat> {
    set j | j in jobs && OfKey(topic, run, jobs[j].topic, jobs[j].run)
  }

  ghost predicate IsLast(jobs: map<nat, Job>, ids: set<nat>, last: nat) {
    last in ids && ids <= jobs.Keys && forall j | j in ids && j != last ::
      jobs[j].createdAt < jobs[last].createdAt || (jobs[j].createdAt == jobs[last].createdAt && j < last)
  }

  lemma {:induction false} SomeIsLast(jobs: map<nat, Job>, ids: set<nat>) returns (last: nat)
    requires ids != {} && ids <= jobs.Keys
    ensures IsLast(jobs, ids, last)
    decreases |ids|
  {
    last :| last in ids;
    if ids != {last} {
      var other := SomeIsLast(jobs, ids - {last});
      var a, b := jobs[other].createdAt, jobs[last].createdAt;
      if a > b || (a == b && other > last) { last := other; }
    }
  }

  /** With no event left to dispatch, exactly one job of each key is not superseded: the one inserted last. While
      an event is left, none is. */
  lemma OneCurrentJobPerKey(jobs: map<nat, Job>, events: map<nat, Event>, topic: Topic, run: nat)
    requires JobsOf(jobs, topic, run) != {}
    ensures (exists e | e in events :: OfKey(topic, run, events[e].topic, events[e].run) && !events[e].dispatched) ==>
              forall j | j in JobsOf(jobs, topic, run) :: Superseded(jobs, events, j)
    ensures (forall e | e in events && OfKey(topic, run, events[e].topic, events[e].run) :: events[e].dispatched) ==>
              exists last | IsLast(jobs, JobsOf(jobs, topic, run), last) ::
                forall j | j in JobsOf(jobs, topic, run) :: Superseded(jobs, events, j) <==> j != last
  {
    var last := SomeIsLast(jobs, JobsOf(jobs, topic, run));
    forall j | j in JobsOf(jobs, topic, run) && j != last ensures Superseded(jobs, events, j) {
      assert Newer(jobs, last, j);
    }
    if e :| e in events && OfKey(topic, run, events[e].topic, events[e].run) && !events[e].dispatched {
      forall j | j in JobsOf(jobs, topic, run) ensures Superseded(jobs, events, j) {
        assert Pending(events[e], jobs[j]);
      }
    } else {
      forall other | other in jobs ensures !Newer(jobs, other, last) {
        assert other in JobsOf(jobs, topic, run) || !SameKey(jobs[other].topic, jobs[other].run, topic, run);
      }
    }
  }

  // ---- passes exclude each other -------------------------------------------------------------

  predicate KeysDiffer(jobs: map<nat, Job>, a: nat, b: nat) {
    a in jobs && b in jobs ==> !OfKey(jobs[a].topic, jobs[a].run, jobs[b].topic, jobs[b].run)
  }

  /** Whatever two passes are at, it is not the same key. */
  ghost predicate PassesApart(s: State) {
    forall v, w | v in s.passes && w in s.passes && v != w && !s.passes[v].phase.Idle? && !s.passes[w].phase.Idle? ::
      KeysDiffer(s.jobs, s.passes[v].phase.job, s.passes[w].phase.job)
  }

  lemma PassesStayApart(s: State, step: Step, s': State)
    requires Next(s, step, s') && Inv(s) && PassesApart(s)
    ensures PassesApart(s')
  {
    if ReconcilerStep(step) {
      PassStepsReadOnly(s, step, s');
      PassStepsKeepJobInHand(s, step, s');
      hide Inv, Next;
      PassStepKeepsApart(s, step, s');
    } else {
      hide Next, TablesStep, PassesApart, KeysDiffer;
      OtherSteps(s, step, s');
      OtherStepKeepsApart(s, s');
    }
  }

  lemma OtherStepKeepsApart(s: State, s': State)
    requires TablesStep(s, s') && s'.passes == s.passes && PassesHoldFailedJobs(s) && PassesApart(s)
    ensures PassesApart(s')
  {
    hide EventsStep, RunsStep, Stamped;
    forall v, w | v in s.passes && w in s.passes && v != w && !s.passes[v].phase.Idle? && !s.passes[w].phase.Idle?
      ensures KeysDiffer(s'.jobs, s.passes[v].phase.job, s.passes[w].phase.job)
    {
      assert KeysDiffer(s.jobs, s.passes[v].phase.job, s.passes[w].phase.job);
    }
  }

  lemma PassStepKeepsApart(s: State, step: Step, s': State)
    requires ReconcilerStep(step) && s'.jobs == s.jobs && PassesApart(s)
    requires forall w | w in s'.passes && w != step.worker :: w in s.passes && s'.passes[w] == s.passes[w]
    requires step.worker in s'.passes && !s'.passes[step.worker].phase.Idle? ==>
               if step.CheckJob? then s'.passes[step.worker].phase.job == step.job && step.job in s.jobs
                                      && LockFree(s, step.worker, step.job)
               else step.worker in s.passes && !s.passes[step.worker].phase.Idle?
                    && s'.passes[step.worker].phase.job == s.passes[step.worker].phase.job
    ensures PassesApart(s')
  {
    hide KeysDiffer, LockFree;
    var me := step.worker;
    forall v | v in s'.passes && v != me && !s'.passes[v].phase.Idle? && me in s'.passes && !s'.passes[me].phase.Idle?
      ensures KeysDiffer(s.jobs, s'.passes[v].phase.job, s'.passes[me].phase.job)
              && KeysDiffer(s.jobs, s'.passes[me].phase.job, s'.passes[v].phase.job)
    {
      if step.CheckJob? { LockKeepsApart(s, me, step.job, v); }
    }
  }

  lemma LockKeepsApart(s: State, worker: nat, job: nat, other: nat)
    requires job in s.jobs && LockFree(s, worker, job)
    requires other in s.passes && other != worker && !s.passes[other].phase.Idle?
    ensures KeysDiffer(s.jobs, s.passes[other].phase.job, job) && KeysDiffer(s.jobs, job, s.passes[other].phase.job)
  {
  }

  lemma PassStepsKeepJobInHand(s: State, step: Step, s': State)
    requires Next(s, step, s') && ReconcilerStep(step)
    ensures forall w | w in s'.passes && w != step.worker :: w in s.passes && s'.passes[w] == s.passes[w]
    ensures step.worker in s'.passes && !s'.passes[step.worker].phase.Idle? ==>
              if step.CheckJob? then s'.passes[step.worker].phase.job == step.job && step.job in s.jobs
                                     && LockFree(s, step.worker, step.job)
              else step.worker in s.passes && !s.passes[step.worker].phase.Idle?
                   && s'.passes[step.worker].phase.job == s.passes[step.worker].phase.job
  {
    hide ProjectionOf, Superseded, LockFree;
  }

  lemma StartsApart(s: State)
    requires Init(s)
    ensures PassesApart(s)
  {
  }

  /** Over every run: no two passes are at jobs of the same key at the same time. */
  lemma {:induction false} PassesNeverShareAKey(states: seq<State>, steps: seq<Step>, i: nat)
    requires Execution(states, steps) && i < |states|
    ensures PassesApart(states[i])
  {
    hide Next, Inv, PassesApart;
    if i == 0 {
      StartsApart(states[0]);
    } else {
      PassesNeverShareAKey(states, steps, i - 1);
      ReachableInv(states, steps, i - 1);
      PassesStayApart(states[i - 1], steps[i - 1], states[i]);
    }
  }
}
