/** Five short histories of one batch, step by step from its creation, in which the promises that do not
    hold in general are broken. State n of a history is taken at clock n. */
module BatchWitnesses {
  import opened Prelude
  import opened BatchProtocol
  import opened BatchOutbox
  import opened Reconciliation
  import opened ReconcilerRaces

  const COMMIT_EVENT := Event(CommitTopic, 0, 1, false)
  const REQUEST_EVENT := Event(RequestTopic, 0, 3, false)
  const RUN_EVENT := Event(RunTopic, 1, 5, false)
  const SECOND_RUN_EVENT := Event(RunTopic, 2, 6, false)
  const PUBLISH_EVENT := Event(PublishTopic, 1, 8, false)
  const COMMIT_JOB := Job(CommitTopic, 0, 0, 2, Active)
  const REQUEST_JOB := Job(RequestTopic, 0, 1, 4, Active)

  function Quiet(clock: nat, batch: Batch, runs: map<nat, Run>, snapshots: set<nat>, events: map<nat, Event>,
                 jobs: map<nat, Job>): State {
    State(clock, batch, runs, snapshots, events, jobs, map[], map[], multiset{})
  }

  const UPLOADING := Batch(Uploading, None, 0, 0)
  const COMMITTING := Batch(Committing, None, 1, 0)
  const COMMITTED := Batch(Committed, None, 3, 1)

  // ---- a batch is committed and its calculation requested ------------------------------------

  function Opening(n: nat): State
    requires n <= 5
  {
    if n == 0 then Quiet(0, UPLOADING, map[], {}, map[], map[])
    else if n == 1 then Quiet(1, COMMITTING, map[], {}, map[0 := COMMIT_EVENT], map[])
    else if n == 2 then Quiet(2, COMMITTING, map[], {}, map[0 := COMMIT_EVENT], map[10 := COMMIT_JOB])
    else if n == 3 then
      Quiet(3, COMMITTED, map[], {}, map[0 := COMMIT_EVENT, 1 := REQUEST_EVENT], map[10 := COMMIT_JOB])
    else if n == 4 then
      Quiet(4, COMMITTED, map[], {}, map[0 := COMMIT_EVENT, 1 := REQUEST_EVENT],
            map[10 := COMMIT_JOB, 11 := REQUEST_JOB])
    else
      Quiet(5, COMMITTED, map[1 := Run(RunQueued, None, 5)], {},
            map[0 := COMMIT_EVENT, 1 := REQUEST_EVENT, 2 := RUN_EVENT], map[10 := COMMIT_JOB, 11 := REQUEST_JOB])
  }

  lemma Opening1()
    ensures Next(Opening(0), Preflight(1, 1, 1, 0), Opening(1))
  {
  }

  lemma Opening2()
    ensures Next(Opening(1), BossInsert(0, 10), Opening(2))
  {
  }

  lemma Opening3()
    ensures Next(Opening(2), Commit(0, 1), Opening(3))
  {
  }

  lemma Opening4()
    ensures Next(Opening(3), BossInsert(1, 11), Opening(4))
  {
  }

  lemma Opening5()
    ensures Next(Opening(4), RequestRun(11, 1, 2), Opening(5))
  {
  }

  lemma OpeningIsReachable()
    ensures Reachable(Opening(5))
  {
    hide Next, Opening, Reachable;
    assert Init(Opening(0)) by { OpeningStarts(); }
    StartIsReachable(Opening(0));
    Opening1();
    StepIsReachable(Opening(0), Preflight(1, 1, 1, 0), Opening(1));
    Opening2();
    StepIsReachable(Opening(1), BossInsert(0, 10), Opening(2));
    Opening3();
    StepIsReachable(Opening(2), Commit(0, 1), Opening(3));
    Opening4();
    StepIsReachable(Opening(3), BossInsert(1, 11), Opening(4));
    Opening5();
    StepIsReachable(Opening(4), RequestRun(11, 1, 2), Opening(5));
  }

  lemma OpeningStarts()
    ensures Init(Opening(0))
  {
  }

  // ---- a run fails late ----------------------------------------------------------------------

  const RUN_JOB := Job(RunTopic, 1, 2, 6, Active)

  function Jobs(job: Job): map<nat, Job> {
    map[10 := COMMIT_JOB, 11 := REQUEST_JOB, 12 := job]
  }

  function LateEvents(dispatched: bool): map<nat, Event> {
    map[0 := COMMIT_EVENT, 1 := REQUEST_EVENT, 2 := RUN_EVENT.(dispatched := dispatched)]
  }

  /** The run's job fails for good before the request handler attaches the run to the batch. */
  function Late(n: nat): State
    requires 6 <= n <= 12
  {
    var queued := map[1 := Run(RunQueued, None, 5)];
    var calculating := Batch(Calculating, None, 9, 1);
    var failed := Jobs(RUN_JOB.(state := FailedAt(8)));
    if n == 6 then Quiet(6, COMMITTED, queued, {}, LateEvents(false), Jobs(RUN_JOB))
    else if n == 7 then Quiet(7, COMMITTED, queued, {}, LateEvents(true), Jobs(RUN_JOB))
    else if n == 8 then Quiet(8, COMMITTED, queued, {}, LateEvents(true), failed)
    else if n == 9 then Quiet(9, calculating, queued, {}, LateEvents(true), failed)
    else if n == 10 then
      Quiet(10, calculating, queued, {}, LateEvents(true), failed).(passes := map[1 := Pass(10, {12}, Idle)])
    else if n == 11 then
      Quiet(11, calculating, queued, {}, LateEvents(true), failed).(passes := map[1 := Pass(10, {12}, Cleared(12, 11))])
    else
      State(12, Batch(Failed, Some(CalculationFailure("CALCULATION_FAILED")), 12, 1),
            map[1 := Run(RunFailed, Some(CalculationFailure("CALCULATION_FAILED")), 5)], {}, LateEvents(true), failed,
            map[], map[1 := Pass(10, {12}, Decided(12))], multiset{12})
  }

  lemma Late6()
    ensures Next(Opening(5), BossInsert(2, 12), Late(6))
  {
  }

  lemma Late7()
    ensures Next(Late(6), MarkDispatched(2), Late(7))
  {
    assert Late(6).jobs[12].event == 2;
  }

  lemma Late8()
    ensures Next(Late(7), FailJob(12), Late(8))
  {
  }

  lemma Late9()
    ensures Next(Late(8), AttachRun(1), Late(9))
  {
  }

  lemma Late10()
    ensures Next(Late(9), SelectJobs(1, {12}), Late(10))
  {
  }

  lemma Late11()
    ensures Next(Late(10), CheckJob(1, 12), Late(11))
  {
    hide Superseded;
    RunJobIsCurrent();
  }

  lemma RunJobIsCurrent()
    ensures !Superseded(Jobs(RUN_JOB.(state := FailedAt(8))), LateEvents(true), 12)
  {
  }

  lemma Late12()
    ensures Next(Late(11), ProjectJob(1), Late(12))
  {
  }

  /** From the creation of a batch, the failure of a calculation run is projected over a batch update younger
      than that failure. */
  lemma LateProjectionHappens()
    ensures exists s, s' :: Reachable(s) && Next(s, ProjectJob(1), s') && Enabled(s, ProjectJob(1))
              && s.batch.updatedAt > s.jobs[s.passes[1].phase.job].state.at && s'.batch != s.batch
  {
    LateIsReachable();
    Late12();
    assert Late(11).batch.updatedAt > Late(11).jobs[Late(11).passes[1].phase.job].state.at
           && Late(12).batch != Late(11).batch;
  }

  lemma LateIsReachable()
    ensures Reachable(Late(11))
  {
    hide Next, Late, Reachable;
    LateJobIsReachable();
    Late9();
    StepIsReachable(Late(8), AttachRun(1), Late(9));
    Late10();
    StepIsReachable(Late(9), SelectJobs(1, {12}), Late(10));
    Late11();
    StepIsReachable(Late(10), CheckJob(1, 12), Late(11));
  }

  lemma LateJobIsReachable()
    ensures Reachable(Late(8))
  {
    hide Next, Opening, Late, Reachable;
    OpeningIsReachable();
    Late6();
    StepIsReachable(Opening(5), BossInsert(2, 12), Late(6));
    Late7();
    StepIsReachable(Late(6), MarkDispatched(2), Late(7));
    Late8();
    StepIsReachable(Late(7), FailJob(12), Late(8));
  }

  /** From the creation of a batch: two reconciling processes poll the failed job before either records it,
      and the second projects it after its reconciliation succeeded. */
  lemma ProjectionAfterSuccessHappens()
    ensures exists s, s' :: Reachable(s) && Next(s, ProjectJob(2), s') && Enabled(s, ProjectJob(2))
              && HasSucceeded(s, s.passes[2].phase.job)
  {
    hide Next, Reachable, Superseded, HasSucceeded;
    LateJobIsReachable();
    RunJobIsCurrent();
    var s := Late(8);
    var s1, s2, s3, s4, s5, s6, s7 := SecondPassProjectsAfterSuccess(s, 1, 2, 12);
    StepIsReachable(s, SelectJobs(1, {12}), s1);
    StepIsReachable(s1, SelectJobs(2, {12}), s2);
    StepIsReachable(s2, CheckJob(1, 12), s3);
    StepIsReachable(s3, ProjectJob(1), s4);
    StepIsReachable(s4, RecordJob(1), s5);
    StepIsReachable(s5, CheckJob(2, 12), s6);
    assert Enabled(s6, ProjectJob(2)) by { NextIsEnabled(s6, ProjectJob(2), s7); }
  }

  lemma NextIsEnabled(s: State, step: Step, s': State)
    requires Next(s, step, s')
    ensures Enabled(s, step)
  {
    hide Effect;
  }

  // ---- a redelivered request creates a second run --------------------------------------------

  const PUBLISH_JOB := Job(PublishTopic, 1, 4, 9, Active)
  const WAITING := Batch(Calculating, None, 7, 1)

  function Events(publish: bool, dispatched: bool): map<nat, Event> {
    var requested := map[0 := COMMIT_EVENT, 1 := REQUEST_EVENT, 2 := RUN_EVENT, 3 := SECOND_RUN_EVENT];
    if publish then requested[4 := PUBLISH_EVENT.(dispatched := dispatched)] else requested
  }

  function Runs(first: RunStatus, second: RunStatus): map<nat, Run> {
    map[1 := Run(first, None, 5), 2 := Run(second, None, 6)]
  }

  function Twice(n: nat): State
    requires 6 <= n <= 9
  {
    var jobs := map[10 := COMMIT_JOB, 11 := REQUEST_JOB];
    if n == 6 then Quiet(6, COMMITTED, Runs(RunQueued, RunQueued), {}, Events(false, false), jobs)
    else if n == 7 then Quiet(7, WAITING, Runs(RunQueued, RunQueued), {}, Events(false, false), jobs)
    else if n == 8 then Quiet(8, WAITING, Runs(RunReady, RunQueued), {}, Events(true, false), jobs)
    else Quiet(9, WAITING, Runs(RunReady, RunQueued), {}, Events(true, false), Jobs(PUBLISH_JOB))
  }

  lemma Twice6()
    ensures Next(Opening(5), RequestRun(11, 2, 3), Twice(6))
  {
  }

  lemma Twice7()
    ensures Next(Twice(6), AttachRun(2), Twice(7))
  {
  }

  lemma Twice8()
    ensures Next(Twice(7), CompleteRun(1, 4), Twice(8))
  {
  }

  lemma Twice9()
    ensures Next(Twice(8), BossInsert(4, 12), Twice(9))
  {
  }

  lemma TwiceIsReachable()
    ensures Reachable(Twice(9))
  {
    hide Next, Opening, Twice, Reachable;
    OpeningIsReachable();
    Twice6();
    StepIsReachable(Opening(5), RequestRun(11, 2, 3), Twice(6));
    Twice7();
    StepIsReachable(Twice(6), AttachRun(2), Twice(7));
    Twice8();
    StepIsReachable(Twice(7), CompleteRun(1, 4), Twice(8));
    Twice9();
    StepIsReachable(Twice(8), BossInsert(4, 12), Twice(9));
  }

  // ---- its first publication fails while the second run completes ----------------------------

  function Stale(n: nat): State
    requires 10 <= n <= 15
  {
    var failed := Jobs(PUBLISH_JOB.(state := FailedAt(11)));
    var runs := Runs(RunReady, RunQueued);
    var newer := Events(true, true)[5 := Event(PublishTopic, 2, 14, false)];
    if n == 10 then Quiet(10, WAITING, runs, {}, Events(true, true), Jobs(PUBLISH_JOB))
    else if n == 11 then Quiet(11, WAITING, runs, {}, Events(true, true), failed)
    else if n == 12 then
      Quiet(12, WAITING, runs, {}, Events(true, true), failed).(passes := map[1 := Pass(12, {12}, Idle)])
    else if n == 13 then
      Quiet(13, WAITING, runs, {}, Events(true, true), failed).(passes := map[1 := Pass(12, {12}, Cleared(12, 13))])
    else if n == 14 then
      Quiet(14, WAITING, Runs(RunReady, RunReady), {}, newer, failed)
      .(passes := map[1 := Pass(12, {12}, Cleared(12, 13))])
    else
      State(15, Batch(ReadyForReview, Some(AutoPublishFailed), 15, 1), Runs(RunReady, RunReady), {}, newer, failed,
            map[], map[1 := Pass(12, {12}, Decided(12))], multiset{12})
  }

  lemma Stale10()
    ensures Next(Twice(9), MarkDispatched(4), Stale(10))
  {
    assert Twice(9).jobs[12].event == 4;
  }

  lemma Stale11()
    ensures Next(Stale(10), FailJob(12), Stale(11))
  {
  }

  lemma Stale12()
    ensures Next(Stale(11), SelectJobs(1, {12}), Stale(12))
  {
  }

  lemma Stale13()
    ensures Next(Stale(12), CheckJob(1, 12), Stale(13))
  {
    hide Superseded;
    PublicationIsCurrent();
  }

  lemma PublicationIsCurrent()
    ensures !Superseded(Jobs(PUBLISH_JOB.(state := FailedAt(11))), Events(true, true), 12)
  {
  }

  lemma Stale14()
    ensures Next(Stale(13), CompleteRun(2, 5), Stale(14))
  {
  }

  lemma Stale15()
    ensures Next(Stale(14), ProjectJob(1), Stale(15))
  {
  }

  lemma StaleIsReachable()
    ensures Reachable(Stale(14))
  {
    hide Next, Twice, Stale, Reachable;
    TwiceIsReachable();
    Stale10();
    StepIsReachable(Twice(9), MarkDispatched(4), Stale(10));
    Stale11();
    StepIsReachable(Stale(10), FailJob(12), Stale(11));
    Stale12();
    StepIsReachable(Stale(11), SelectJobs(1, {12}), Stale(12));
    Stale13();
    StepIsReachable(Stale(12), CheckJob(1, 12), Stale(13));
    Stale14();
    StepIsReachable(Stale(13), CompleteRun(2, 5), Stale(14));
  }

  /** From the creation of a batch: two runs are requested, the publication of the first fails, the second
      completes between the supersession query and the projection, and the superseded failure still puts the
      batch back into review. */
  lemma SupersededPublicationIsProjected()
    ensures exists s, s' :: Reachable(s) && Next(s, ProjectJob(1), s') && Enabled(s, ProjectJob(1))
              && s.jobs[s.passes[1].phase.job].topic.PublishTopic?
              && Superseded(s.jobs, s.events, s.passes[1].phase.job) && s'.batch != s.batch
  {
    StaleIsReachable();
    Stale15();
    assert Pending(Stale(14).events[5], Stale(14).jobs[12]);
    assert Stale(15).batch != Stale(14).batch;
  }

  // ---- a publication is redelivered ----------------------------------------------------------

  function Republished(n: nat): State
    requires 10 <= n <= 14
  {
    var s := Twice(9);
    if n == 10 then s.(clock := 10, batch := Batch(ResultPublishing, None, 10, 1))
    else if n == 11 then s.(clock := 11, batch := Batch(ResultPublishing, None, 10, 1), snapshots := {1})
    else if n == 12 then s.(clock := 12, batch := Batch(ResultPublished, None, 12, 1), snapshots := {1})
    else if n == 13 then s.(clock := 13, batch := Batch(ResultPublishing, None, 13, 1), snapshots := {1})
    else s.(clock := 14, batch := Batch(ReadyForReview, Some(AutoPublishFailed), 14, 1), snapshots := {1})
  }

  lemma Republished10()
    ensures Next(Twice(9), StartPublish(1), Republished(10))
  {
  }

  lemma Republished11()
    ensures Next(Republished(10), InsertSnapshot(1), Republished(11))
  {
  }

  lemma Republished12()
    ensures Next(Republished(11), FinishPublish(1), Republished(12))
  {
  }

  lemma Republished13()
    ensures Next(Republished(12), StartPublish(1), Republished(13))
  {
  }

  lemma Republished14()
    ensures Next(Republished(13), MarkPublishFailed(12), Republished(14))
  {
  }

  /** From the creation of a batch: it is published, the publication is delivered once more, and fails. */
  lemma RedeliveredPublicationUnpublishes()
    ensures exists s, s1, s2 :: Reachable(s) && s.batch.status.ResultPublished? && Next(s, StartPublish(1), s1)
              && Next(s1, MarkPublishFailed(12), s2) && s2.batch.status.ReadyForReview?
  {
    RepublishedIsReachable();
    Republished13();
    Republished14();
    assert Republished(12).batch.status.ResultPublished? && Republished(14).batch.status.ReadyForReview?;
  }

  lemma RepublishedIsReachable()
    ensures Reachable(Republished(12))
  {
    hide Next, Twice, Republished, Reachable;
    TwiceIsReachable();
    Republished10();
    StepIsReachable(Twice(9), StartPublish(1), Republished(10));
    Republished11();
    StepIsReachable(Republished(10), InsertSnapshot(1), Republished(11));
    Republished12();
    StepIsReachable(Republished(11), FinishPublish(1), Republished(12));
  }

  // ---- a confirmation is repeated ------------------------------------------------------------

  /** The commit that a confirmation with key 0 enqueued fails for lack of capacity; the same confirmation, sent
      again, starts it again. */
  function Retried(n: nat): State
    requires n <= 6
  {
    var committing, failed := Batch(Committing, None, 1, 0), Batch(Failed, Some(CapacityUnavailable), 4, 0);
    var sent := map[0 := COMMIT_EVENT.(dispatched := true)];
    if n == 0 then Quiet(0, Batch(AwaitingConfirmation, None, 0, 0), map[], {}, map[], map[])
    else if n == 1 then Quiet(1, committing, map[], {}, map[0 := COMMIT_EVENT], map[])
    else if n == 2 then Quiet(2, committing, map[], {}, map[0 := COMMIT_EVENT], map[10 := COMMIT_JOB])
    else if n == 3 then Quiet(3, committing, map[], {}, sent, map[10 := COMMIT_JOB])
    else if n == 4 then Quiet(4, failed, map[], {}, sent, map[10 := COMMIT_JOB])
    else if n == 5 then Quiet(5, failed, map[], {}, sent, map[10 := COMMIT_JOB.(state := Finished)])
    else Quiet(6, Batch(Committing, None, 6, 0), map[], {}, sent, map[10 := COMMIT_JOB.(state := Finished)])
  }

  lemma Retried0()
    ensures Init(Retried(0))
  {
  }

  lemma Retried1()
    ensures Next(Retried(0), Confirm(0, 0), Retried(1))
  {
  }

  lemma Retried2()
    ensures Next(Retried(1), BossInsert(0, 10), Retried(2))
  {
  }

  lemma Retried3()
    ensures Next(Retried(2), MarkDispatched(0), Retried(3))
  {
    assert Retried(2).jobs[10].event == 0;
  }

  lemma Retried4()
    ensures Next(Retried(3), MarkCommitFailed(CapacityUnavailable), Retried(4))
  {
  }

  lemma Retried5()
    ensures Next(Retried(4), FinishJob(10), Retried(5))
  {
  }

  lemma Retried6()
    ensures Next(Retried(5), Confirm(0, 0), Retried(6))
  {
  }

  lemma RetriedIsReachable()
    ensures Reachable(Retried(6))
  {
    hide Next, Retried, Reachable, Init;
    Retried0();
    StartIsReachable(Retried(0));
    Retried1();
    StepIsReachable(Retried(0), Confirm(0, 0), Retried(1));
    Retried2();
    StepIsReachable(Retried(1), BossInsert(0, 10), Retried(2));
    Retried3();
    StepIsReachable(Retried(2), MarkDispatched(0), Retried(3));
    Retried4();
    StepIsReachable(Retried(3), MarkCommitFailed(CapacityUnavailable), Retried(4));
    Retried5();
    StepIsReachable(Retried(4), FinishJob(10), Retried(5));
    Retried6();
    StepIsReachable(Retried(5), Confirm(0, 0), Retried(6));
  }

  /** From the creation of a batch: repeating a confirmation with the same key after its commit failed leaves the
      batch COMMITTING with nothing in the outbox or the queue that would commit it. */
  lemma RepeatedConfirmationStrands()
    ensures exists s :: Reachable(s) && Stranded(s)
  {
    RetriedIsReachable();
    assert Stranded(Retried(6));
  }
}
