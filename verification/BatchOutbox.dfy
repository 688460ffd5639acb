/** What the transactions of a batch hand over to each other through the outbox. As long as every insertion
    brings a key of its own nothing is forgotten: a batch that waits for its commit, its calculation or its
    publication has an event or a job for it. The confirmation is the one insertion whose key the caller
    chooses, and a key used before leaves the batch waiting for a commit nobody delivers. */
module BatchOutbox {
  import opened Prelude
  import opened BatchProtocol
  import CommitOnce
  import Reconciliation

  ghost predicate Holds(events: map<nat, Event>, topic: Topic, run: nat) {
    exists e | e in events :: events[e].topic == topic && events[e].run == run
  }

  ghost predicate HoldsSince(events: map<nat, Event>, topic: Topic, at: nat) {
    exists e | e in events :: events[e].topic == topic && events[e].createdAt == at
  }

  /** Whoever has to act next is in the outbox: for the status the batch holds, for every run and for every
      finished run. Only a finished run is ever published. */
  ghost predicate Queued(s: State) {
    && (s.batch.status.Committing? ==> HoldsSince(s.events, CommitTopic, s.batch.updatedAt))
    && (s.batch.status in {Committed, CommittedWithExclusions} ==>
          HoldsSince(s.events, RequestTopic, s.batch.updatedAt))
    && (forall r | r in s.runs :: Holds(s.events, RunTopic, r))
    && (forall r | r in s.runs && s.runs[r].status == RunReady :: Holds(s.events, PublishTopic, r))
    && (forall r | r in s.snapshots :: r in s.runs && s.runs[r].status == RunReady)
  }

  /** The row an insertion brings does not collide with an earlier one. Only the confirmation takes its key from
      its caller; the others are made of the batch's, the run's or a new id, and each is used once. */
  predicate NewKey(s: State, step: Step) {
    match step
    case Preflight(_, _, _, event) => event !in s.events
    case Confirm(_, event) => event !in s.events
    case Commit(_, event) => event !in s.events
    case RequestRun(_, _, event) => event !in s.events
    case CompleteRun(_, event) => event !in s.events
    case _ => true
  }

  // ---- what each transaction writes, over the statuses themselves -----------------------------

  /** The preflight acts before the commit only. It commits exactly when every file it expects has been analyzed
      and at least one was parsed, and in the transaction that enqueues the commit. */
  lemma PreflightExactly(s: State, expected: nat, analyzed: nat, parsed: nat, event: nat, s': State)
    requires Next(s, Preflight(expected, analyzed, parsed, event), s')
    ensures s.batch.status !in {Uploading, Analyzing, AwaitingFiles, AwaitingMapping, AwaitingConfirmation} ==>
              s' == s.(clock := s'.clock)
    ensures s.batch.status in {Uploading, Analyzing, AwaitingFiles, AwaitingMapping, AwaitingConfirmation} ==>
              && s'.batch.updatedAt == s'.clock && s'.batch.materialised == s.batch.materialised
              && (s'.batch.status == Committing <==> expected == analyzed && expected > 0 && parsed > 0)
              && (s'.batch.status == Analyzing <==> expected != analyzed && expected > 0)
              && s'.batch.status in {Committing, Analyzing, Failed}
              && s'.batch.failure == (if s'.batch.status == Failed then Some(NoUsableUploadFiles) else None)
              && s'.events == if s'.batch.status == Committing then AddEvent(s.events, event, CommitTopic, 0, s'.clock)
                              else s.events
  {
    hide AddEvent;
  }

  /** A cancellation keeps the failure code; a batch once handed to the commit cannot be cancelled. */
  lemma CancelExactly(s: State, s': State)
    requires Next(s, CancelUpload, s')
    ensures s'.batch ==
              if s.batch.status in {Draft, Uploading, Analyzing, AwaitingFiles, AwaitingMapping, AwaitingConfirmation,
                                    Retrying, Failed}
              then Batch(Cancelled, s.batch.failure, s'.clock, s.batch.materialised) else s.batch
    ensures s'.events == s.events && s'.runs == s.runs
  {
  }

  lemma RemoveAllExactly(s: State, s': State)
    requires Next(s, RemoveAllFiles, s')
    ensures s'.batch == if s.batch.status == Uploading
                        then Batch(Cancelled, s.batch.failure, s'.clock, s.batch.materialised) else s.batch
    ensures s'.events == s.events && s'.runs == s.runs
  {
  }

  /** The row is BatchRow's business; a confirmation that changes it enqueues the commit, or for a batch already
      committed the calculation. */
  lemma ConfirmExactly(s: State, pendingHard: nat, event: nat, s': State)
    requires Next(s, Confirm(pendingHard, event), s')
    ensures s'.batch == ConfirmBatch(s.batch, pendingHard, s'.clock) && s'.runs == s.runs
    ensures s'.batch == s.batch ==> s'.events == s.events
    ensures s'.batch != s.batch ==>
              && s'.batch.updatedAt == s'.clock && s'.batch.status in {Committing, CommittedWithExclusions}
              && s'.events == AddEvent(s.events, event, if s'.batch.status == Committing then CommitTopic
                                                        else RequestTopic, 0, s'.clock)
  {
    hide AddEvent;
  }

  lemma CommitExactly(s: State, excluded: nat, event: nat, s': State)
    requires Next(s, Commit(excluded, event), s')
    ensures s'.batch == CommitBatch(s.batch, excluded, s'.clock) && s'.runs == s.runs
    ensures s.batch.status != Committing ==> s' == s.(clock := s'.clock)
    ensures s.batch.status == Committing ==>
              && s'.batch.updatedAt == s'.clock && s'.batch.status in {Committed, CommittedWithExclusions}
              && s'.events == AddEvent(s.events, event, RequestTopic, 0, s'.clock)
  {
    hide AddEvent;
  }

  /** Starting a publication needs a run, finishing it a snapshot, and neither looks at the status; a failed one
      spares only a published batch. */
  lemma PublishExactly(s: State, step: Step, s': State)
    requires Next(s, step, s')
    ensures step.StartPublish? ==>
              s'.batch == if step.run in s.runs then Batch(ResultPublishing, None, s'.clock, s.batch.materialised)
                          else s.batch
    ensures step.FinishPublish? ==>
              s'.batch == if step.run in s.snapshots then Batch(ResultPublished, None, s'.clock, s.batch.materialised)
                          else s.batch
    ensures step.MarkPublishFailed? ==>
              s'.batch == if s.batch.status == ResultPublished then s.batch
                          else Batch(ReadyForReview, Some(AutoPublishFailed), s'.clock, s.batch.materialised)
    ensures step.InsertSnapshot? ==> s'.snapshots == s.snapshots + {step.run} && s'.batch == s.batch
  {
    hide AddEvent, PreflightBatch, ConfirmBatch, CommitBatch, AttachRunBatch, ProjectOf, CheckOf, RecordOf, GiveUpOf,
      MarkRunFailedOf, CompleteRunOf, RequestRunOf;
  }

  /** The latest run is one created last, and there is one as soon as there is any. */
  lemma {:induction false} LatestExactly(s: State)
    ensures Latest(s).Some? <==> s.runs != map[]
    ensures Latest(s).Some? ==>
              && (exists run | run in s.runs :: s.runs[run] == Latest(s).value)
              && forall r | r in s.runs :: s.runs[r].createdAt <= Latest(s).value.createdAt
  {
    if s.runs != map[] {
      var r :| r in s.runs;
      var run := LastCreated(s.runs, s.runs.Keys);
      assert LatestRun(s, run);
    }
  }

  lemma {:induction false} LastCreated(runs: map<nat, Run>, ids: set<nat>) returns (run: nat)
    requires ids != {} && ids <= runs.Keys
    ensures run in ids && forall r | r in ids :: runs[r].createdAt <= runs[run].createdAt
    decreases |ids|
  {
    run :| run in ids;
    if ids != {run} {
      var other := LastCreated(runs, ids - {run});
      if runs[other].createdAt > runs[run].createdAt { run := other; }
    }
  }

  /** What the reconciler writes for a job that failed for good, queue by queue. */
  lemma ProjectionExactly(s: State, job: Job, now: nat)
    requires job.state.FailedAt?
    ensures var p := ProjectionOf(s, job, now);
            var inTime := s.batch.updatedAt <= job.state.at;
            match job.topic
            case CommitTopic => p == s.(batch := ProjectedAs(s.batch, s.batch.status == Committing && inTime, Failed,
                                                             Some(ImportCommitFailed), now))
            case RequestTopic => p == s.(batch := RequestProjectedAs(s.batch, inTime, Latest(s), now))
            case RunTopic =>
              if job.run in s.runs && s.runs[job.run].status in {RunQueued, RunRunning, RunBlocked} then
                var code := Some(CalculationFailure("CALCULATION_FAILED"));
                p == s.(runs := s.runs[job.run := Run(RunFailed, code, s.runs[job.run].createdAt)],
                        batch := ProjectedAs(s.batch,
                                             s.batch.status in {Committed, CommittedWithExclusions, Calculating},
                                             Failed, code, now))
              else p == s
            case PublishTopic =>
              if job.run in s.snapshots then
                p == s.(batch := ProjectedAs(s.batch, s.batch.status != ResultPublished && inTime,
                                             ResultPublished, None, now))
              else
                p == s.(batch := ProjectedAs(s.batch,
                                             s.batch.status in {Committed, CommittedWithExclusions, Calculating,
                                                                ReadyForReview, ResultPublishing} && inTime,
                                             ReadyForReview, Some(AutoPublishFailed), now))
  {
    hide Latest;
  }

  function ProjectedAs(b: Batch, applies: bool, status: Status, failure: Option<Code>, now: nat): Batch {
    if applies then Batch(status, failure, now, b.materialised) else b
  }

  /** A failed request whose run exists after all follows the run. */
  function RequestProjectedAs(b: Batch, inTime: bool, latest: Option<Run>, now: nat): Batch {
    var applies := b.status in {Committed, CommittedWithExclusions, Calculating} && inTime;
    match latest
    case None => ProjectedAs(b, applies, Failed, Some(CalculationRequestFailed), now)
    case Some(run) =>
      if run.status in {RunQueued, RunRunning, RunReady} then ProjectedAs(b, applies, Calculating, None, now)
      else ProjectedAs(b, applies, Failed, if run.failure == None then Some(CalculationBlocked) else run.failure, now)
  }

  // ---- the outbox only grows -----------------------------------------------------------------

  ghost predicate Grown(events: map<nat, Event>, events': map<nat, Event>) {
    forall e | e in events :: e in events' && events'[e] == events[e].(dispatched := events'[e].dispatched)
  }

  lemma HoldsLasts(events: map<nat, Event>, events': map<nat, Event>, topic: Topic, run: nat)
    requires Grown(events, events') && Holds(events, topic, run)
    ensures Holds(events', topic, run)
  {
    var e :| e in events && events[e].topic == topic && events[e].run == run;
    assert e in events';
  }

  lemma HoldsSinceLasts(events: map<nat, Event>, events': map<nat, Event>, topic: Topic, at: nat)
    requires Grown(events, events') && HoldsSince(events, topic, at)
    ensures HoldsSince(events', topic, at)
  {
    var e :| e in events && events[e].topic == topic && events[e].createdAt == at;
    assert e in events';
  }

  lemma EventsGrow(s: State, step: Step, s': State)
    requires Next(s, step, s') && Reconciliation.Inv(s)
    ensures Grown(s.events, s'.events)
  {
    hide Next, Reconciliation.Inv;
    Reconciliation.AnyStep(s, step, s');
  }

  /** An added event is there, or one with the same key was. */
  lemma Added(events: map<nat, Event>, id: nat, topic: Topic, run: nat, now: nat)
    requires id !in events
    ensures Holds(AddEvent(events, id, topic, run, now), topic, run)
    ensures !KeyedByRun(topic) ==> HoldsSince(AddEvent(events, id, topic, run, now), topic, now)
  {
    var events' := AddEvent(events, id, topic, run, now);
    if KeyTaken(events, id, topic, run) {
      var e :| e in events && events[e].topic == topic && events[e].run == run;
      assert e in events';
    } else {
      assert id in events' && events'[id] == Event(topic, run, now, false);
    }
  }

  // ---- each step keeps the batch, its runs and their publications queued ---------------------

  /** Which steps bring the batch to a status another handler has to act on, and what they enqueue. */
  lemma EnteredStatus(s: State, step: Step, s': State)
    requires Next(s, step, s') && NewKey(s, step) && s'.batch != s.batch
    ensures s'.batch.status.Committing? ==> HoldsSince(s'.events, CommitTopic, s'.batch.updatedAt)
    ensures s'.batch.status in {Committed, CommittedWithExclusions} ==>
              HoldsSince(s'.events, RequestTopic, s'.batch.updatedAt)
  {
    hide Holds, HoldsSince, AddEvent;
    if step.Preflight? || step.Confirm? || step.Commit? {
      Added(s.events, step.event, CommitTopic, 0, s'.clock);
      Added(s.events, step.event, RequestTopic, 0, s'.clock);
      EntryIsEnqueued(s, step, s');
    } else {
      EntersNoQueue(s, step, s');
    }
  }

  lemma EntryIsEnqueued(s: State, step: Step, s': State)
    requires Next(s, step, s') && s'.batch != s.batch && (step.Preflight? || step.Confirm? || step.Commit?)
    ensures s'.batch.updatedAt == s'.clock
    ensures s'.batch.status.Committing? ==> s'.events == AddEvent(s.events, step.event, CommitTopic, 0, s'.clock)
    ensures s'.batch.status in {Committed, CommittedWithExclusions} ==>
              s'.events == AddEvent(s.events, step.event, RequestTopic, 0, s'.clock)
  {
    hide Next, AddEvent;
    match step
    case Preflight(expected, analyzed, parsed, event) => PreflightExactly(s, expected, analyzed, parsed, event, s');
    case Confirm(pendingHard, event) => ConfirmExactly(s, pendingHard, event, s');
    case Commit(excluded, event) => CommitExactly(s, excluded, event, s');
  }

  lemma EntersNoQueue(s: State, step: Step, s': State)
    requires Next(s, step, s') && s'.batch != s.batch && !(step.Preflight? || step.Confirm? || step.Commit?)
    ensures s'.batch.status !in {Committing, Committed, CommittedWithExclusions}
  {
    CommitOnce.StepRow(s, step, s');
    hide Next, Effect, PreflightBatch, ConfirmBatch, CommitBatch, ProjectionOf;
    if step.ProjectJob? {
      ProjectionEntersNoQueue(s, s.jobs[s.passes[step.worker].phase.job], s'.clock);
    }
  }

  lemma ProjectionEntersNoQueue(s: State, job: Job, now: nat)
    requires job.state.FailedAt? && ProjectionOf(s, job, now).batch != s.batch
    ensures ProjectionOf(s, job, now).batch.status !in {Committing, Committed, CommittedWithExclusions}
  {
    hide ProjectionOf, Latest;
    ProjectionExactly(s, job, now);
  }

  lemma StatusStaysQueued(s: State, step: Step, s': State)
    requires Next(s, step, s') && NewKey(s, step) && Grown(s.events, s'.events) && Queued(s)
    ensures s'.batch.status.Committing? ==> HoldsSince(s'.events, CommitTopic, s'.batch.updatedAt)
    ensures s'.batch.status in {Committed, CommittedWithExclusions} ==>
              HoldsSince(s'.events, RequestTopic, s'.batch.updatedAt)
  {
    hide Next, Holds, HoldsSince, Grown;
    if s'.batch != s.batch {
      EnteredStatus(s, step, s');
    } else if s.batch.status.Committing? {
      HoldsSinceLasts(s.events, s'.events, CommitTopic, s.batch.updatedAt);
    } else if s.batch.status in {Committed, CommittedWithExclusions} {
      HoldsSinceLasts(s.events, s'.events, RequestTopic, s.batch.updatedAt);
    }
  }

  /** A requested run is created once, as QUEUED, together with its event. */
  lemma RunRequested(s: State, job: nat, run: nat, event: nat, s': State)
    requires Next(s, RequestRun(job, run, event), s')
    ensures run in s.runs ==> s' == s.(clock := s'.clock)
    ensures run !in s.runs ==> s'.runs == s.runs[run := Run(RunQueued, None, s'.clock)] && s'.batch == s.batch
    ensures s'.snapshots == s.snapshots
    ensures run !in s.runs && event !in s.events ==> Holds(s'.events, RunTopic, run)
  {
    if run !in s.runs && event !in s.events {
      hide AddEvent;
      Added(s.events, event, RunTopic, run, s'.clock);
    }
  }

  /** An open run becomes READY and clears its failure; a READY one stays READY; either way its publication is
      in the outbox, once. A failed run stays failed. */
  lemma RunCompleted(s: State, run: nat, event: nat, s': State)
    requires Next(s, CompleteRun(run, event), s')
    ensures s'.batch == s.batch && s'.snapshots == s.snapshots
    ensures run !in s.runs || s.runs[run].status == RunFailed ==> s'.runs == s.runs
    ensures run in s.runs && s.runs[run].status != RunFailed ==>
              s'.runs == s.runs[run := Run(RunReady, None, s.runs[run].createdAt)]
    ensures run in s.runs && s.runs[run].status != RunFailed && event !in s.events ==>
              Holds(s'.events, PublishTopic, run)
    ensures Holds(s.events, PublishTopic, run) || run !in s.runs || s.runs[run].status == RunFailed ==>
              s'.events == s.events
  {
    if run in s.runs && s.runs[run].status != RunFailed && event !in s.events {
      hide AddEvent;
      Added(s.events, event, PublishTopic, run, s'.clock);
    }
  }

  /** Only an open run fails; with it a batch that waits for its result. */
  lemma RunFails(s: State, run: nat, code: Code, now: nat)
    ensures var p := MarkRunFailedOf(s, run, code, now);
            if run in s.runs && s.runs[run].status in {RunQueued, RunRunning, RunBlocked} then
              && p.runs == s.runs[run := Run(RunFailed, Some(code), s.runs[run].createdAt)]
              && p.batch == (if s.batch.status in {Committed, CommittedWithExclusions, Calculating} then
                               Batch(Failed, Some(code), now, s.batch.materialised) else s.batch)
            else p == s
    ensures MarkRunFailedOf(s, run, code, now).events == s.events
            && MarkRunFailedOf(s, run, code, now).snapshots == s.snapshots
  {
  }

  lemma OtherStepsKeepRuns(s: State, step: Step, s': State)
    requires Next(s, step, s')
    requires !(step.RequestRun? || step.CompleteRun? || step.MarkRunFailed? || step.ProjectJob?)
    ensures s'.runs == s.runs
    ensures s'.snapshots == s.snapshots || (step.InsertSnapshot? && step.run in s.runs
            && s.runs[step.run].status == RunReady && s'.snapshots == s.snapshots + {step.run})
  {
    hide AddEvent, PreflightBatch, ConfirmBatch, CommitBatch, AttachRunBatch, MarkCalculationFailedBatch,
      ProjectOf, MarkRunFailedOf, CompleteRunOf, RequestRunOf;
  }

  lemma ProjectedRuns(s: State, worker: nat, s': State)
    requires Next(s, ProjectJob(worker), s')
    ensures s'.snapshots == s.snapshots && s'.runs.Keys == s.runs.Keys
    ensures forall r | r in s.runs ::
              s'.runs[r] == s.runs[r] || (Open(s.runs[r].status) && s'.runs[r].status.RunFailed?)
  {
    hide ProjectionOf, Latest;
    ProjectionExactly(s, s.jobs[s.passes[worker].phase.job], s'.clock);
  }

  /** A run appears, or finishes, only together with its event, and READY is final. */
  lemma ChangedRun(s: State, step: Step, s': State, run: nat)
    requires Next(s, step, s') && NewKey(s, step) && run in s'.runs
    ensures run !in s.runs ==> Holds(s'.events, RunTopic, run) && s'.runs[run].status == RunQueued
    ensures run in s.runs && s'.runs[run].status == RunReady && s.runs[run].status != RunReady ==>
              Holds(s'.events, PublishTopic, run)
    ensures run in s.runs && s.runs[run].status == RunReady ==> s'.runs[run].status == RunReady
  {
    hide Holds, Next;
    match step
    case RequestRun(job, r, event) => RunRequested(s, job, r, event, s');
    case CompleteRun(r, event) => RunCompleted(s, r, event, s');
    case MarkRunFailed(r, code) => FailureStep(s, r, code, s');
    case ProjectJob(worker) => ProjectedRuns(s, worker, s');
    case _ => OtherStepsKeepRuns(s, step, s');
  }

  lemma FailureStep(s: State, run: nat, code: Code, s': State)
    requires Next(s, MarkRunFailed(run, code), s')
    ensures s'.snapshots == s.snapshots && s'.runs.Keys == s.runs.Keys
    ensures forall r | r in s.runs ::
              s'.runs[r] == s.runs[r] || (Open(s.runs[r].status) && s'.runs[r].status.RunFailed?)
  {
    hide MarkRunFailedOf;
    RunFails(s, run, code, s'.clock);
  }

  /** Runs are never deleted, and only a READY run gets a snapshot. */
  lemma RunsRemain(s: State, step: Step, s': State)
    requires Next(s, step, s')
    ensures s.runs.Keys <= s'.runs.Keys
    ensures forall r | r in s'.snapshots && r !in s.snapshots :: r in s.runs && s.runs[r].status == RunReady
  {
    hide Next;
    match step
    case RequestRun(job, r, event) => RunRequested(s, job, r, event, s');
    case CompleteRun(r, event) => RunCompleted(s, r, event, s');
    case MarkRunFailed(r, code) => FailureStep(s, r, code, s');
    case ProjectJob(worker) => ProjectedRuns(s, worker, s');
    case _ => OtherStepsKeepRuns(s, step, s');
  }

  lemma StepKeepsQueued(s: State, step: Step, s': State)
    requires Next(s, step, s') && NewKey(s, step) && Reconciliation.Inv(s) && Queued(s)
    ensures Queued(s')
  {
    hide Next, NewKey, Holds, HoldsSince, Grown, Reconciliation.Inv;
    EventsGrow(s, step, s');
    StatusStaysQueued(s, step, s');
    RunsRemain(s, step, s');
    forall r | r in s'.runs ensures Holds(s'.events, RunTopic, r) {
      ChangedRun(s, step, s', r);
      if r in s.runs { HoldsLasts(s.events, s'.events, RunTopic, r); }
    }
    forall r | r in s'.runs && s'.runs[r].status == RunReady ensures Holds(s'.events, PublishTopic, r) {
      ChangedRun(s, step, s', r);
      if r in s.runs && s.runs[r].status == RunReady { HoldsLasts(s.events, s'.events, PublishTopic, r); }
    }
    forall r | r in s'.snapshots ensures r in s'.runs && s'.runs[r].status == RunReady {
      ChangedRun(s, step, s', r);
    }
  }

  ghost predicate NewKeys(states: seq<State>, steps: seq<Step>, i: nat)
    requires Execution(states, steps) && i <= |steps|
  {
    forall k | 0 <= k < i :: NewKey(states[k], steps[k])
  }

  /** A job stands for the event, or the dispatcher will still find it. */
  ghost predicate Handed(s: State, e: nat)
    requires e in s.events
  {
    !s.events[e].dispatched || exists j | j in s.jobs :: s.jobs[j].event == e && s.jobs[j].topic == s.events[e].topic
                                                         && s.jobs[j].run == s.events[e].run
  }

  lemma LinkedIsHanded(s: State, e: nat)
    requires Reconciliation.Linked(s.jobs, s.events, s.runs) && e in s.events
    ensures Handed(s, e)
  {
    if s.events[e].dispatched {
      var j :| j in s.jobs && s.jobs[j].event == e;
      assert Reconciliation.InsertedFor(s.jobs[j], s.events[e]);
    }
  }

  lemma {:induction false} QueuedAlways(states: seq<State>, steps: seq<Step>, i: nat)
    requires Execution(states, steps) && i < |states| && NewKeys(states, steps, i)
    ensures Queued(states[i])
  {
    hide Next, NewKey, Queued, Reconciliation.Inv;
    if i == 0 {
      assert Queued(states[0]) by { StartIsQueued(states[0]); }
    } else {
      QueuedAlways(states, steps, i - 1);
      Reconciliation.ReachableInv(states, steps, i - 1);
      StepKeepsQueued(states[i - 1], steps[i - 1], states[i]);
    }
  }

  lemma StartIsQueued(s: State)
    requires Init(s)
    ensures Queued(s)
  {
    if s.batch.status.Committing? {
      var e: nat :| s.events == map[e := Event(CommitTopic, 0, s.batch.updatedAt, false)];
      assert e in s.events;
    }
  }

  /** Nothing is forgotten: in every state of every run whose insertions bring keys of their own, a batch that
      is COMMITTING has a commit event as young as its status, one just committed a calculation request, every
      run its event and every READY run its publication; and every event has a job or awaits dispatch. */
  lemma NothingIsForgotten(states: seq<State>, steps: seq<Step>, i: nat)
    requires Execution(states, steps) && i < |states| && NewKeys(states, steps, i)
    ensures Queued(states[i])
    ensures forall e | e in states[i].events :: Handed(states[i], e)
  {
    hide Init, Next, NewKey, Queued, Handed, Reconciliation.Linked;
    QueuedAlways(states, steps, i);
    Reconciliation.ReachableInv(states, steps, i);
    forall e | e in states[i].events ensures Handed(states[i], e) {
      LinkedIsHanded(states[i], e);
    }
  }

  // ---- a failed commit -----------------------------------------------------------------------

  const CAPACITY_CODES := {CapacityUnavailable, CapacityInsufficient}

  /** The row a failed commit leaves behind. */
  predicate CommitFailed(b: Batch, code: Code, at: nat) {
    b == Batch(Failed, Some(code), at, 0) && CommitCode(code)
  }

  lemma FailedCommitStays(s: State, step: Step, s': State, code: Code, at: nat)
    requires Next(s, step, s') && CommitOnce.Inv(s) && CommitFailed(s.batch, code, at)
    requires !step.Confirm? && !step.CancelUpload?
    ensures s'.batch == s.batch
  {
    hide AddEvent, Latest;
    assert s.runs.Keys == {} && s.snapshots == {};
  }

  lemma {:induction false} FailedCommitLasts(states: seq<State>, steps: seq<Step>, i: nat, k: nat, code: Code)
    requires Execution(states, steps) && i < k < |states|
    requires steps[i] == MarkCommitFailed(code) && states[i].batch.status.Committing?
    requires forall n | i < n < k :: !steps[n].Confirm? && !steps[n].CancelUpload?
    ensures CommitFailed(states[k].batch, code, states[i + 1].clock)
    decreases k
  {
    hide Init, Effect;
    if k == i + 1 {
      CommitOnce.ReachableInv(states, steps, i);
      FailureIsStored(states[i], code, states[k]);
    } else {
      hide Next;
      FailedCommitLasts(states, steps, i, k - 1, code);
      CommitOnce.ReachableInv(states, steps, k - 1);
      FailedCommitStays(states[k - 1], steps[k - 1], states[k], code, states[i + 1].clock);
    }
  }

  lemma FailureIsStored(s: State, code: Code, s': State)
    requires Next(s, MarkCommitFailed(code), s') && CommitOnce.Inv(s) && s.batch.status.Committing?
    ensures CommitFailed(s'.batch, code, s'.clock)
  {
  }

  /** Over every run: after a commit attempt failed with a code, the next confirmation brings the batch back to
      COMMITTING if and only if it is a capacity code, and otherwise leaves the row alone; in between nothing
      changes it. The commit is enqueued again exactly when the confirmation brings a new key. */
  lemma FailedCommitIsRetriedExactly(states: seq<State>, steps: seq<Step>, i: nat, k: nat, code: Code,
                                     pendingHard: nat, event: nat)
    requires Execution(states, steps) && i < k < |steps|
    requires steps[i] == MarkCommitFailed(code) && states[i].batch.status.Committing?
    requires steps[k] == Confirm(pendingHard, event)
    requires forall n | i < n < k :: !steps[n].Confirm? && !steps[n].CancelUpload?
    ensures states[k].batch == Batch(Failed, Some(code), states[i + 1].clock, 0)
    ensures states[k + 1].batch.status.Committing? <==> code in CAPACITY_CODES
    ensures states[k + 1].batch ==
              if code in CAPACITY_CODES then Batch(Committing, None, states[k + 1].clock, 0) else states[k].batch
    ensures states[k + 1].events ==
              if code in CAPACITY_CODES && event !in states[k].events then
                states[k].events[event := Event(CommitTopic, 0, states[k + 1].clock, false)]
              else states[k].events
  {
    hide Init;
    FailedCommitLasts(states, steps, i, k, code);
    assert Next(states[k], steps[k], states[k + 1]);
  }

  // ---- a confirmation with a key used before -------------------------------------------------

  /** COMMITTING, with no commit event to dispatch and no commit job at work. */
  ghost predicate Stranded(s: State) {
    && s.batch.status.Committing?
    && (forall e | e in s.events && s.events[e].topic == CommitTopic :: s.events[e].dispatched)
    && (forall j | j in s.jobs && s.jobs[j].topic == CommitTopic ::
          s.jobs[j].state == Finished || (s.jobs[j].state.FailedAt? && s.jobs[j].state.at < s.batch.updatedAt))
  }

  lemma StrandedRow(s: State, step: Step, s': State)
    requires Next(s, step, s') && CommitOnce.Inv(s) && Reconciliation.Inv(s) && Stranded(s)
    requires !step.Commit? && !step.MarkCommitFailed?
    ensures s'.batch == s.batch
  {
    hide AddEvent, Latest, Reconciliation.Timely, Reconciliation.Linked, Reconciliation.ClearedMeansCurrent,
      Reconciliation.SpentJobs, Reconciliation.SelectedBeforeSuccess;
    assert s.runs.Keys == {} && s.snapshots == {};
  }

  /** Nothing but the commit handler itself would change the row again: not another confirmation, not the
      dispatcher, not the reconciler. And nothing calls the handler. */
  lemma StrandedStays(s: State, step: Step, s': State)
    requires Next(s, step, s') && CommitOnce.Inv(s) && Reconciliation.Inv(s) && Stranded(s)
    requires !step.Commit? && !step.MarkCommitFailed?
    ensures Stranded(s') && s'.batch == s.batch
  {
    hide Next, CommitOnce.Inv, Reconciliation.Linked, Reconciliation.ClearedMeansCurrent, Reconciliation.SpentJobs,
      Reconciliation.SelectedBeforeSuccess, Reconciliation.PassesHoldFailedJobs;
    StrandedRow(s, step, s');
    Reconciliation.AnyStep(s, step, s');
    EndedJobsStay(s, step, s');
  }

  lemma EndedJobsStay(s: State, step: Step, s': State)
    requires Next(s, step, s') && Reconciliation.Inv(s)
    ensures forall j | j in s.jobs && !s.jobs[j].state.Active? :: j in s'.jobs && s'.jobs[j] == s.jobs[j]
  {
    if step.FailJob? || step.FinishJob? || step.BossInsert? {
    } else {
      OtherStepsKeepJobs(s, step, s');
    }
  }

  lemma OtherStepsKeepJobs(s: State, step: Step, s': State)
    requires Next(s, step, s') && !(step.FailJob? || step.FinishJob? || step.BossInsert?)
    ensures s'.jobs == s.jobs
  {
    hide AddEvent, PreflightBatch, ConfirmBatch, CommitBatch, AttachRunBatch, MarkCalculationFailedBatch,
      Superseded, ProjectionOf;
    if step.ProjectJob? {
      Reconciliation.ProjectionKeepsJobs(s, s.jobs[s.passes[step.worker].phase.job], s'.clock);
    }
  }

  lemma {:induction false} StrandedForGood(states: seq<State>, steps: seq<Step>, i: nat, k: nat)
    requires Execution(states, steps) && i <= k < |states| && Stranded(states[i])
    requires forall n | i <= n < k :: !steps[n].Commit? && !steps[n].MarkCommitFailed?
    ensures Stranded(states[k]) && states[k].batch == states[i].batch
    decreases k
  {
    hide Init, Next, Stranded, CommitOnce.Inv, Reconciliation.Inv;
    if i < k {
      StrandedForGood(states, steps, i, k - 1);
      CommitOnce.ReachableInv(states, steps, k - 1);
      Reconciliation.ReachableInv(states, steps, k - 1);
      StrandedStays(states[k - 1], steps[k - 1], states[k]);
    }
  }

  /** When a confirmation that retries a failed commit strands the batch: exactly when its key was used before
      and no earlier commit event or job is left over. */
  lemma ConfirmationStrandsExactly(s: State, pendingHard: nat, event: nat, s': State)
    requires Next(s, Confirm(pendingHard, event), s') && Reconciliation.Inv(s)
    requires s.batch.status == Failed && s.batch.failure.Some? && s.batch.failure.value in CAPACITY_CODES
    ensures s'.batch.status.Committing?
    ensures Stranded(s') <==>
              && event in s.events
              && (forall e | e in s.events && s.events[e].topic == CommitTopic :: s.events[e].dispatched)
              && (forall j | j in s.jobs && s.jobs[j].topic == CommitTopic :: !s.jobs[j].state.Active?)
  {
    ConfirmationEnqueues(s, pendingHard, event, s');
    hide Next, Effect, ConfirmOf;
    if event !in s.events {
      assert event in s'.events && !s'.events[event].dispatched;
    }
  }

  lemma ConfirmationEnqueues(s: State, pendingHard: nat, event: nat, s': State)
    requires Next(s, Confirm(pendingHard, event), s') && Reconciliation.Inv(s)
    requires s.batch.status == Failed && s.batch.failure.Some? && s.batch.failure.value in CAPACITY_CODES
    ensures s'.batch == Batch(Committing, None, s'.clock, s.batch.materialised) && s'.jobs == s.jobs
    ensures s'.events == if event in s.events then s.events
                         else s.events[event := Event(CommitTopic, 0, s'.clock, false)]
    ensures forall j | j in s.jobs && s.jobs[j].state.FailedAt? :: s.jobs[j].state.at < s'.clock
  {
    hide Reconciliation.Linked, Reconciliation.PassesHoldFailedJobs, Reconciliation.ClearedMeansCurrent,
      Reconciliation.SpentJobs, Reconciliation.SelectedBeforeSuccess;
  }
}
