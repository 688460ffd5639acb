/** Interleavings of the batch protocol that show which promises of the reconciler do not hold in general. */
module ReconcilerRaces {
  import opened Prelude
  import opened BatchProtocol
  import opened Reconciliation

  function WithPass(s: State, worker: nat, pass: Pass): State {
    s.(passes := s.passes[worker := pass], clock := s.clock + 1)
  }

  lemma Selects(s: State, worker: nat, job: nat)
    requires Reconcilable(s, job) && worker !in s.passes
    ensures Next(s, SelectJobs(worker, {job}), WithPass(s, worker, Pass(s.clock + 1, {job}, Idle)))
  {
  }

  lemma Checks(s: State, worker: nat, job: nat)
    requires job in s.jobs && !Superseded(s.jobs, s.events, job) && OthersIdle(s, worker)
    requires worker in s.passes && s.passes[worker].phase.Idle? && job in s.passes[worker].remaining
    ensures Next(s, CheckJob(worker, job), WithPass(s, worker, s.passes[worker].(phase := Cleared(job, s.clock + 1))))
  {
    hide Superseded;
  }

  predicate OthersIdle(s: State, worker: nat) {
    forall v | v in s.passes && v != worker :: s.passes[v].phase.Idle?
  }

  lemma Projects(s: State, worker: nat) returns (s': State)
    requires Enabled(s, ProjectJob(worker))
    ensures Next(s, ProjectJob(worker), s') && s'.jobs == s.jobs && s'.ops == s.ops && s'.events == s.events
    ensures s'.passes == s.passes[worker := s.passes[worker].(phase := Decided(s.passes[worker].phase.job))]
  {
    hide ProjectionOf;
    s' := ProjectOf(s, worker, s.clock + 1).(clock := s.clock + 1);
    ProjectionKeepsJobs(s, s.jobs[s.passes[worker].phase.job], s'.clock);
  }

  lemma Records(s: State, worker: nat) returns (s': State)
    requires Enabled(s, RecordJob(worker))
    ensures Next(s, RecordJob(worker), s') && s'.jobs == s.jobs && s'.events == s.events
    ensures HasSucceeded(s', s.passes[worker].phase.job)
    ensures worker in s'.passes && s'.passes[worker].phase.Idle?
    ensures s'.passes.Keys == s.passes.Keys && forall v | v in s.passes && v != worker :: s'.passes[v] == s.passes[v]
  {
    s' := RecordOf(s, worker, s.clock + 1).(clock := s.clock + 1);
  }

  /** Two processes poll before either has recorded anything. */
  lemma BothSelect(s: State, first: nat, second: nat, job: nat) returns (s1: State, s2: State)
    requires Reconcilable(s, job) && s.passes == map[] && first != second
    ensures Next(s, SelectJobs(first, {job}), s1) && Next(s1, SelectJobs(second, {job}), s2)
    ensures s2.jobs == s.jobs && s2.events == s.events && s2.passes.Keys == {first, second}
    ensures forall w | w in s2.passes :: s2.passes[w].remaining == {job} && s2.passes[w].phase.Idle?
  {
    hide Next, Reconcilable;
    s1 := WithPass(s, first, Pass(s.clock + 1, {job}, Idle));
    Selects(s, first, job);
    s2 := WithPass(s1, second, Pass(s1.clock + 1, {job}, Idle));
    assert Reconcilable(s1, job) by { StillReconcilable(s, s1, job); }
    Selects(s1, second, job);
  }

  lemma FirstReconciles(s2: State, first: nat, second: nat, job: nat) returns (s3: State, s4: State, s5: State)
    requires job in s2.jobs && s2.jobs[job].state.FailedAt? && !Superseded(s2.jobs, s2.events, job)
    requires s2.passes.Keys == {first, second} && first != second
    requires forall w | w in s2.passes :: s2.passes[w].remaining == {job} && s2.passes[w].phase.Idle?
    ensures Next(s2, CheckJob(first, job), s3) && Next(s3, ProjectJob(first), s4) && Next(s4, RecordJob(first), s5)
    ensures s5.jobs == s2.jobs && s5.events == s2.events && HasSucceeded(s5, job) && s5.passes.Keys == s2.passes.Keys
    ensures s5.passes[first].phase.Idle? && s5.passes[second] == s2.passes[second]
  {
    hide Superseded, Next, Effect, HasSucceeded;
    s3 := WithPass(s2, first, s2.passes[first].(phase := Cleared(job, s2.clock + 1)));
    Checks(s2, first, job);
    s4 := Projects(s3, first);
    s5 := Records(s4, first);
  }

  /** With two reconciling processes a job is projected after its reconciliation succeeded, although the job
      lock lets only one of them at the job at a time: from every state with a reconcilable job and no pass
      under way, two polls before the first record lead there. */
  lemma SecondPassProjectsAfterSuccess(s: State, first: nat, second: nat, job: nat)
    returns (s1: State, s2: State, s3: State, s4: State, s5: State, s6: State, s7: State)
    requires Reconcilable(s, job) && !Superseded(s.jobs, s.events, job) && s.passes == map[] && first != second
    ensures Next(s, SelectJobs(first, {job}), s1) && Next(s1, SelectJobs(second, {job}), s2)
    ensures Next(s2, CheckJob(first, job), s3) && Next(s3, ProjectJob(first), s4) && Next(s4, RecordJob(first), s5)
    ensures Next(s5, CheckJob(second, job), s6) && HasSucceeded(s6, job)
    ensures second in s6.passes && s6.passes[second].phase.Cleared? && s6.passes[second].phase.job == job
    ensures Next(s6, ProjectJob(second), s7)
  {
    hide Superseded, Next, Effect, Reconcilable, HasSucceeded;
    assert job in s.jobs && s.jobs[job].state.FailedAt? by { ReconcilableFailed(s, job); }
    s1, s2 := BothSelect(s, first, second, job);
    s3, s4, s5 := FirstReconciles(s2, first, second, job);
    s6 := WithPass(s5, second, s5.passes[second].(phase := Cleared(job, s5.clock + 1)));
    Checks(s5, second, job);
    assert HasSucceeded(s6, job) by { StillSucceeded(s5, s6, job); }
    s7 := Projects(s6, second);
  }

  lemma ReconcilableFailed(s: State, job: nat)
    requires Reconcilable(s, job)
    ensures job in s.jobs && s.jobs[job].state.FailedAt?
  {
  }

  lemma StillReconcilable(s: State, s': State, job: nat)
    requires Reconcilable(s, job) && s'.jobs == s.jobs && s'.ops == s.ops
    ensures Reconcilable(s', job)
  {
  }

  lemma StillSucceeded(s: State, s': State, job: nat)
    requires HasSucceeded(s, job) && s'.ops == s.ops
    ensures HasSucceeded(s', job)
  {
  }
}
