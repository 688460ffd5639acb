/** createOutboxDispatchScheduler: three flags, one loop that awaits run(), and callers that wake or stop
    it between any two awaits. Each event below is what happens between two awaits. */
module OutboxScheduler {
  import opened Prelude

  /** The flags, the number of run() calls still in flight, and of all run() calls so far. */
  datatype Sched = Sched(requested: bool, running: bool, stopped: bool, inFlight: nat, starts: nat)

  datatype Event = Wake | Completed(count: nat) | Failed | Stop

  const IDLE: Sched := Sched(false, false, false, 0, 0)

  // ---- the promised behaviour of each event --------------------------------------------------

  function CallRun(s: Sched): Sched {
    s.(inFlight := s.inFlight + 1, starts := s.starts + 1)
  }

  function StartOf(s: Sched): Sched {
    if s.running || s.stopped then s else CallRun(s.(running := true, requested := false))
  }

  function WakeOf(s: Sched): Sched {
    if s.stopped then s else StartOf(s.(requested := true))
  }

  /** The finally block. */
  function FinishOf(s: Sched): Sched {
    var idle := s.(running := false);
    if idle.requested then StartOf(idle) else idle
  }

  function CompletedOf(s: Sched, limit: nat, count: nat): Sched
    requires s.inFlight > 0
  {
    var back := s.(inFlight := s.inFlight - 1);
    if s.stopped then FinishOf(back)
    else if count >= limit then CallRun(back)
    else if s.requested then CallRun(back.(requested := false))
    else FinishOf(back)
  }

  function FailedOf(s: Sched): Sched
    requires s.inFlight > 0
  {
    FinishOf(s.(inFlight := s.inFlight - 1))
  }

  /** The scheduler as the source writes it. */
  class Scheduler {
    const batchLimit: nat
    var requested: bool
    var running: bool
    var stopped: bool
    var inFlight: nat
    var starts: nat

    function View(): Sched
      reads this
    {
      Sched(requested, running, stopped, inFlight, starts)
    }

    constructor (batchLimit: nat)
      requires batchLimit >= 1
      ensures View() == IDLE && this.batchLimit == batchLimit
    {
      this.batchLimit := batchLimit;
      requested, running, stopped, inFlight, starts := false, false, false, 0, 0;
    }

    method Run()
      modifies this
      ensures View() == CallRun(old(View()))
    {
      inFlight := inFlight + 1;
      starts := starts + 1;
    }

    /** start(), up to the first await of run(). */
    method Start()
      modifies this
      ensures View() == StartOf(old(View()))
    {
      if running || stopped { return; }
      running := true;
      requested := false;
      Run();
    }

    method Wake()
      modifies this
      ensures View() == WakeOf(old(View()))
      ensures old(stopped) ==> View() == old(View())
      ensures !old(stopped) && old(running) ==> View() == old(View()).(requested := true)
      ensures !old(stopped) && !old(running) ==>
                View() == Sched(false, true, false, old(inFlight) + 1, old(starts) + 1)
    {
      if stopped { return; }
      requested := true;
      Start();
    }

    /** The finally block of the loop. */
    method Finish()
      modifies this
      ensures View() == FinishOf(old(View()))
    {
      running := false;
      if !stopped && requested { Start(); }
    }

    /** The loop resumes with the count run() resolved to. */
    method RunCompleted(count: nat)
      requires inFlight > 0
      modifies this
      ensures View() == CompletedOf(old(View()), batchLimit, count)
      ensures old(stopped) ==> View() == old(View()).(running := false, inFlight := old(inFlight) - 1)
      ensures !old(stopped) && (count >= batchLimit || old(requested)) ==>
                View() == old(View()).(requested := count >= batchLimit && old(requested), starts := old(starts) + 1)
      ensures !old(stopped) && count < batchLimit && !old(requested) ==>
                View() == old(View()).(running := false, inFlight := old(inFlight) - 1)
    {
      inFlight := inFlight - 1;
      if !stopped && count >= batchLimit {
        Run();
      } else if !stopped && requested {
        requested := false;
        Run();
      } else {
        Finish();
      }
    }

    /** run() rejected. */
    method RunFailed()
      requires inFlight > 0
      modifies this
      ensures View() == FailedOf(old(View()))
      ensures !old(stopped) && old(requested) ==>
                View() == Sched(false, true, false, old(inFlight), old(starts) + 1)
      ensures old(stopped) || !old(requested) ==>
                View() == old(View()).(running := false, inFlight := old(inFlight) - 1)
    {
      inFlight := inFlight - 1;
      Finish();
    }

    method Stop()
      modifies this
      ensures View() == old(View()).(stopped := true)
    {
      stopped := true;
    }
  }

  /** createOutboxDispatchScheduler refuses a limit that no batch could fall short of. */
  method Create(batchLimit: int) returns (r: Result<Scheduler, string>)
    ensures r.Ok? <==> batchLimit >= 1
    ensures r.Ok? ==> fresh(r.value) && r.value.View() == IDLE && r.value.batchLimit == batchLimit
    ensures r.Err? ==> r.error == "OUTBOX_BATCH_LIMIT_INVALID"
  {
    if batchLimit < 1 { return Err("OUTBOX_BATCH_LIMIT_INVALID"); }
    var scheduler := new Scheduler(batchLimit);
    return Ok(scheduler);
  }

  // ---- runs ----------------------------------------------------------------------------------

  predicate Enabled(s: Sched, event: Event) {
    event.Completed? || event.Failed? ==> s.inFlight > 0
  }

  function Next(s: Sched, limit: nat, event: Event): Sched
    requires Enabled(s, event)
  {
    match event
    case Wake => WakeOf(s)
    case Completed(count) => CompletedOf(s, limit, count)
    case Failed => FailedOf(s)
    case Stop => s.(stopped := true)
  }

  predicate Trace(limit: nat, states: seq<Sched>, events: seq<Event>) {
    limit >= 1 && |states| == |events| + 1 && states[0] == IDLE
    && forall i | 0 <= i < |events| ::
        Enabled(states[i], events[i]) && states[i + 1] == Next(states[i], limit, events[i])
  }

  /** At most one run() is in flight, and the running flag says whether one is; an idle scheduler that was
      not stopped has no request left over. */
  predicate Inv(s: Sched) {
    s.inFlight == (if s.running then 1 else 0) && (s.requested && !s.stopped ==> s.running)
  }

  lemma {:induction false} ReachableInv(limit: nat, states: seq<Sched>, events: seq<Event>, i: nat)
    requires Trace(limit, states, events) && i < |states|
    ensures Inv(states[i])
  {
    if i > 0 {
      ReachableInv(limit, states, events, i - 1);
      assert states[i] == Next(states[i - 1], limit, events[i - 1]);
    }
  }

  /** An accepted wake is served by a run that starts at or after it, or is still remembered by a run in
      flight, or the scheduler was stopped; failures included. */
  lemma {:induction false} WakeIsRemembered(limit: nat, states: seq<Sched>, events: seq<Event>, i: nat, j: nat)
    requires Trace(limit, states, events) && i < j < |states| && events[i].Wake? && !states[i].stopped
    ensures states[j].starts > states[i].starts || (states[j].running && states[j].requested) || states[j].stopped
    ensures states[j].starts >= states[i].starts
    decreases j
  {
    ReachableInv(limit, states, events, j - 1);
    assert states[j] == Next(states[j - 1], limit, events[j - 1]);
    if j > i + 1 {
      WakeIsRemembered(limit, states, events, i, j - 1);
    }
  }

  /** Whenever the scheduler is idle and was not stopped, every wake so far has been followed by a run that
      started at or after it. */
  lemma EveryWakeIsServed(limit: nat, states: seq<Sched>, events: seq<Event>, i: nat, j: nat)
    requires Trace(limit, states, events) && i < j < |states| && events[i].Wake? && !states[i].stopped
    requires !states[j].running && !states[j].stopped
    ensures exists k | i <= k < j :: states[k + 1].starts > states[k].starts
  {
    WakeIsRemembered(limit, states, events, i, j);
    SomeStartBetween(states, i, j);
  }

  lemma {:induction false} SomeStartBetween(states: seq<Sched>, i: nat, j: nat)
    requires i < j < |states| && states[j].starts > states[i].starts
    ensures exists k | i <= k < j :: states[k + 1].starts > states[k].starts
    decreases j
  {
    if states[j - 1].starts >= states[j].starts {
      SomeStartBetween(states, i, j - 1);
    } else {
      assert states[(j - 1) + 1].starts > states[j - 1].starts;
    }
  }

  /** What may start a run: the accepted wakes and the full batches among the first n events. */
  function Causes(limit: nat, states: seq<Sched>, events: seq<Event>, n: nat): nat
    requires n <= |events| && |states| == |events| + 1
  {
    if n == 0 then 0
    else
      var e := events[n - 1];
      Causes(limit, states, events, n - 1)
      + (if (e.Wake? || (e.Completed? && e.count >= limit)) && !states[n - 1].stopped then 1 else 0)
  }

  /** No run starts of itself: there are never more runs than wakes and full batches, counting the wake that is
      still to be served. */
  lemma {:induction false} RunsAreAskedFor(limit: nat, states: seq<Sched>, events: seq<Event>, n: nat)
    requires Trace(limit, states, events) && n <= |events|
    ensures states[n].starts + (if states[n].requested && !states[n].stopped then 1 else 0)
            <= Causes(limit, states, events, n)
  {
    if n > 0 {
      RunsAreAskedFor(limit, states, events, n - 1);
      ReachableInv(limit, states, events, n - 1);
      assert states[n] == Next(states[n - 1], limit, events[n - 1]);
    }
  }

  /** A scheduler that goes idle after a successful run has drained the outbox: the last batch was short.
      Only then, after a failure, or after stop does it go idle at all. */
  lemma IdleAfterSuccessMeansShortBatch(limit: nat, states: seq<Sched>, events: seq<Event>, i: nat)
    requires Trace(limit, states, events) && i < |events| && states[i].running
    ensures !states[i + 1].running && !states[i].stopped && events[i].Completed? ==> events[i].count < limit
    ensures !states[i + 1].running ==> events[i].Completed? || events[i].Failed?
    ensures events[i].Completed? && events[i].count >= limit && !states[i].stopped ==>
              states[i + 1].running && states[i + 1].starts == states[i].starts + 1
  {
    ReachableInv(limit, states, events, i);
    assert states[i + 1] == Next(states[i], limit, events[i]);
  }

  /** From stop() on no run starts, and the promise stop() returns settles with the run in flight: once
      nothing is running, nothing ever runs again. */
  lemma {:induction false} NothingStartsAfterStop(limit: nat, states: seq<Sched>, events: seq<Event>, i: nat, j: nat)
    requires Trace(limit, states, events) && i <= j < |states| && states[i].stopped
    ensures states[j].stopped && states[j].starts == states[i].starts
    ensures !states[i].running ==> !states[j].running && states[j].inFlight == 0
    ensures (exists k | i <= k < j :: events[k].Completed? || events[k].Failed?) ==> !states[j].running
    decreases j
  {
    ReachableInv(limit, states, events, j);
    if i < j {
      ReachableInv(limit, states, events, j - 1);
      NothingStartsAfterStop(limit, states, events, i, j - 1);
      assert states[j] == Next(states[j - 1], limit, events[j - 1]);
    }
  }
}
