/** Advisory locks around worker jobs: the keys a call takes, the processes that compete for them, the
    promise chain that serialises one process, and the session clean-up of one call. */
module JobLocks {
  import opened Prelude

  type Key = string

  // ---- [...new Set(keys)].sort() -------------------------------------------------------------

  predicate Less(a: Key, b: Key) {
    if b == "" then false
    else if a == "" then true
    else a[0] < b[0] || (a[0] == b[0] && Less(a[1..], b[1..]))
  }

  lemma {:induction false} LessIsTransitive(a: Key, b: Key, c: Key)
    requires Less(a, b) && Less(b, c)
    ensures Less(a, c)
  {
    if a != "" && a[0] == b[0] == c[0] {
      LessIsTransitive(a[1..], b[1..], c[1..]);
    }
  }

  lemma {:induction false} LessIsStrictAndTotal(a: Key, b: Key)
    ensures !Less(a, a) && (a == b || Less(a, b) || Less(b, a))
  {
    if a != "" && b != "" {
      LessIsStrictAndTotal(a[1..], b[1..]);
      assert a == [a[0]] + a[1..] && b == [b[0]] + b[1..];
    } else if a != "" {
      LessIsStrictAndTotal(a[1..], "");
    }
  }

  predicate Sorted(keys: seq<Key>) {
    forall i, j | 0 <= i < j < |keys| :: Less(keys[i], keys[j])
  }

  /** Inserts a key unless it is already there. */
  function Insert(keys: seq<Key>, key: Key): (r: seq<Key>)
    requires Sorted(keys)
    ensures Sorted(r) && forall k :: k in r <==> k in keys || k == key
  {
    if keys == [] then [key]
    else if keys[0] == key then keys
    else if Less(keys[0], key) then
      var rest := Insert(keys[1..], key);
      assert forall k | k in rest :: Less(keys[0], k);
      [keys[0]] + rest
    else
      LessIsStrictAndTotal(keys[0], key);
      assert forall j | 0 <= j < |keys| :: Less(key, keys[j]) by {
        forall j | 0 < j < |keys| ensures Less(key, keys[j]) { LessIsTransitive(key, keys[0], keys[j]); }
      }
      [key] + keys
  }

  /** The lock list of a call: strictly ascending, and with exactly the keys asked for. */
  function LockList(keys: seq<Key>): (r: seq<Key>)
    ensures Sorted(r) && forall k :: k in r <==> k in keys
  {
    if keys == [] then [] else Insert(LockList(keys[1..]), keys[0])
  }

  // ---- competing processes -------------------------------------------------------------------

  /** A call in some process: its session holds the first taken of its keys; once releasing it takes no more. */
  datatype Call = Call(keys: seq<Key>, taken: nat, releasing: bool)

  type Calls = map<nat, Call>

  predicate Held(call: Call, key: Key) {
    call.taken <= |call.keys| && key in call.keys[..call.taken]
  }

  /** The pg_advisory_lock of call w does not return because call v holds the key. */
  predicate WaitsFor(s: Calls, w: nat, v: nat) {
    w in s && v in s && w != v && !s[w].releasing && s[w].taken < |s[w].keys| && Held(s[v], s[w].keys[s[w].taken])
  }

  ghost predicate Blocked(s: Calls, w: nat) {
    exists v :: WaitsFor(s, w, v)
  }

  datatype Step =
    | Begin(call: nat, asked: seq<Key>)
    | Acquire(call: nat)
    | StopAcquiring(call: nat)        // the work settled, or an acquisition failed
    | Unlock(call: nat)
    | Destroy(call: nat)              // the server ends the session and frees its locks
    | Return(call: nat)
    | LoseSession(call: nat)          // the session ends although the work may still go on

  ghost predicate Next(s: Calls, step: Step, s': Calls) {
    match step
    case Begin(w, asked) => w !in s && s' == s[w := Call(LockList(asked), 0, false)]
    case Acquire(w) =>
      w in s && !s[w].releasing && s[w].taken < |s[w].keys| && !Blocked(s, w)
      && s' == s[w := s[w].(taken := s[w].taken + 1)]
    case StopAcquiring(w) => w in s && s' == s[w := s[w].(releasing := true)]
    case Unlock(w) => w in s && s[w].releasing && s[w].taken > 0 && s' == s[w := s[w].(taken := s[w].taken - 1)]
    case Destroy(w) => w in s && s[w].releasing && s' == s - {w}
    case Return(w) => w in s && s[w].releasing && s[w].taken == 0 && s' == s - {w}
    case LoseSession(w) => w in s && s' == s[w := Call(s[w].keys, 0, true)]
  }

  ghost predicate Inv(s: Calls) {
    && (forall w | w in s :: Sorted(s[w].keys) && s[w].taken <= |s[w].keys|)
    && (forall w, v, k | w in s && v in s && Held(s[w], k) && Held(s[v], k) :: w == v)
  }

  lemma StepKeepsInv(s: Calls, step: Step, s': Calls)
    requires Inv(s) && Next(s, step, s')
    ensures Inv(s')
  {
    if step.Acquire? {
      var w := step.call;
      forall v, k | v in s && v != w && Held(s'[w], k) ensures !Held(s[v], k) {
        if k == s[w].keys[s[w].taken] {
          assert !WaitsFor(s, w, v);
        } else {
          assert Held(s[w], k);
        }
      }
    } else if step.Unlock? {
      assert forall k | Held(s'[step.call], k) :: Held(s[step.call], k);
    }
  }

  ghost predicate Trace(states: seq<Calls>, steps: seq<Step>) {
    |states| == |steps| + 1 && states[0] == map[]
    && forall i | 0 <= i < |steps| :: Next(states[i], steps[i], states[i + 1])
  }

  lemma {:induction false} ReachableInv(states: seq<Calls>, steps: seq<Step>, i: nat)
    requires Trace(states, steps) && i < |states|
    ensures Inv(states[i])
  {
    hide Next;
    if i > 0 {
      ReachableInv(states, steps, i - 1);
      StepKeepsInv(states[i - 1], steps[i - 1], states[i]);
    }
  }

  /** No key is ever held by two calls, sessions that are lost during the work included. */
  lemma MutualExclusion(states: seq<Calls>, steps: seq<Step>, i: nat, w: nat, v: nat, key: Key)
    requires Trace(states, steps) && i < |states| && w in states[i] && v in states[i]
    requires Held(states[i][w], key) && Held(states[i][v], key)
    ensures w == v
  {
    hide Next;
    ReachableInv(states, steps, i);
  }

  /** Over every run a call keeps the keys it holds until it stops acquiring or its session is lost, so during its
      work it holds all of them and nobody else any. */
  lemma {:induction false} HeldThroughWork(states: seq<Calls>, steps: seq<Step>, i: nat, k: nat, w: nat, key: Key)
    requires Trace(states, steps) && i <= k < |states|
    requires w in states[i] && !states[i][w].releasing && Held(states[i][w], key)
    requires forall n | i <= n < k :: steps[n] != StopAcquiring(w) && steps[n] != LoseSession(w)
    ensures w in states[k] && !states[k][w].releasing && Held(states[k][w], key)
    ensures forall v | v in states[k] && v != w :: !Held(states[k][v], key)
    decreases k
  {
    ReachableInv(states, steps, k);
    if i < k {
      HeldThroughWork(states, steps, i, k - 1, w, key);
      ReachableInv(states, steps, k - 1);
      StepKeepsHeld(states[k - 1], steps[k - 1], states[k], w, key);
    }
  }

  lemma StepKeepsHeld(s: Calls, step: Step, s': Calls, w: nat, key: Key)
    requires Inv(s) && Next(s, step, s') && w in s && !s[w].releasing && Held(s[w], key)
    requires step != StopAcquiring(w) && step != LoseSession(w)
    ensures w in s' && !s'[w].releasing && Held(s'[w], key)
  {
  }

  /** A session that goes back to the pool holds no key. */
  lemma ReturnedHoldsNothing(s: Calls, w: nat, s': Calls, key: Key)
    requires Next(s, Return(w), s')
    ensures w in s && !Held(s[w], key) && w !in s'
  {
  }

  ghost predicate Chain(s: Calls, calls: seq<nat>) {
    forall i | 0 <= i < |calls| - 1 :: WaitsFor(s, calls[i], calls[i + 1])
  }

  function Wanted(s: Calls, w: nat): Key
    requires w in s && s[w].taken < |s[w].keys|
  {
    s[w].keys[s[w].taken]
  }

  /** Whoever is waited for wants a greater key than the one it is waited for. */
  lemma WantsGreater(s: Calls, w: nat, v: nat, u: nat)
    requires Inv(s) && WaitsFor(s, w, v) && WaitsFor(s, v, u)
    ensures Less(Wanted(s, w), Wanted(s, v))
  {
  }

  lemma {:induction false} WantedKeysAscend(s: Calls, calls: seq<nat>, next: nat)
    requires Inv(s) && |calls| >= 2 && Chain(s, calls + [next])
    ensures WaitsFor(s, calls[0], calls[1]) && WaitsFor(s, calls[|calls| - 1], next)
    ensures Less(Wanted(s, calls[0]), Wanted(s, calls[|calls| - 1]))
  {
    var all := calls + [next];
    var n := |calls|;
    assert WaitsFor(s, all[0], all[1]) && WaitsFor(s, all[n - 2], all[n - 1]) && WaitsFor(s, all[n - 1], all[n]);
    WantsGreater(s, all[n - 2], all[n - 1], all[n]);
    if n > 2 {
      assert Chain(s, calls[..n - 1] + [calls[n - 1]]) by { assert calls[..n - 1] + [calls[n - 1]] == all[..n]; }
      WantedKeysAscend(s, calls[..n - 1], calls[n - 1]);
      LessIsTransitive(Wanted(s, calls[0]), Wanted(s, calls[n - 2]), Wanted(s, calls[n - 1]));
    }
  }

  /** In no reachable state do calls wait for each other in a circle. */
  lemma NoCircularWait(states: seq<Calls>, steps: seq<Step>, i: nat, circle: seq<nat>)
    requires Trace(states, steps) && i < |states| && |circle| >= 2
    ensures !Chain(states[i], circle + [circle[0]])
  {
    hide Next;
    ReachableInv(states, steps, i);
    var s := states[i];
    if Chain(s, circle + [circle[0]]) {
      var longer := circle + [circle[0]];
      assert WaitsFor(s, longer[0], longer[1]);
      assert Chain(s, longer + [circle[1]]);
      WantedKeysAscend(s, longer, circle[1]);
      LessIsStrictAndTotal(Wanted(s, circle[0]), Wanted(s, circle[0]));
    }
  }

  /** A blocked call of the set whose wanted key is greatest. */
  lemma {:induction false} GreatestBlocked(s: Calls, calls: set<nat>) returns (w: nat)
    requires Inv(s) && calls != {} && calls <= s.Keys && forall v | v in calls :: Blocked(s, v)
    ensures w in calls && s[w].taken < |s[w].keys|
    ensures forall v | v in calls :: s[v].taken < |s[v].keys| && !Less(Wanted(s, w), Wanted(s, v))
  {
    var first :| first in calls;
    LessIsStrictAndTotal(Wanted(s, first), Wanted(s, first));
    if calls == {first} {
      w := first;
    } else {
      w := GreatestBlocked(s, calls - {first});
      if Less(Wanted(s, w), Wanted(s, first)) {
        forall v | v in calls ensures s[v].taken < |s[v].keys| && !Less(Wanted(s, first), Wanted(s, v)) {
          if v != first && Less(Wanted(s, first), Wanted(s, v)) {
            LessIsTransitive(Wanted(s, w), Wanted(s, first), Wanted(s, v));
          }
        }
        w := first;
      }
    }
  }

  /** No deadlock: while any call is under way, some call is not blocked. */
  lemma SomeCallCanProceed(states: seq<Calls>, steps: seq<Step>, i: nat)
    requires Trace(states, steps) && i < |states| && states[i] != map[]
    ensures exists w | w in states[i] :: !Blocked(states[i], w)
  {
    hide Next;
    ReachableInv(states, steps, i);
    var s := states[i];
    var blocked := set w | w in s && Blocked(s, w);
    if blocked == {} {
      var w :| w in s;
      assert w !in blocked;
    } else {
      var w := GreatestBlocked(s, blocked);
      assert Blocked(s, w);
      var v :| WaitsFor(s, w, v);
      HolderOfGreatestIsFree(s, blocked, w, v);
    }
  }

  lemma HolderOfGreatestIsFree(s: Calls, blocked: set<nat>, w: nat, v: nat)
    requires Inv(s) && WaitsFor(s, w, v)
    requires forall x | x in s && Blocked(s, x) :: x in blocked
    requires forall x | x in blocked :: x in s && s[x].taken < |s[x].keys| && !Less(Wanted(s, w), Wanted(s, x))
    ensures v in s && !Blocked(s, v)
  {
    forall u ensures !WaitsFor(s, v, u) {
      if WaitsFor(s, v, u) {
        WantsGreater(s, w, v, u);
      }
    }
  }

  // ---- serializeWorkerExecution --------------------------------------------------------------

  datatype Phase = Waiting | Running | Settled

  /** The module variable executionTail and the calls made so far, each with the promise it awaits: the
      promise of call n settles when call n releases it, and promise -1 was settled from the start. */
  datatype Queue = Queue(tail: int, awaited: seq<int>, phases: seq<Phase>)

  datatype Turn = Enter | Resume(call: nat) | Leave(call: nat)

  predicate Resolved(q: Queue, promise: int) {
    promise < 0 || (promise < |q.phases| && q.phases[promise].Settled?)
  }

  predicate IsIn(q: Queue, call: nat, phase: Phase) {
    call < |q.phases| && call < |q.awaited| && q.phases[call] == phase
  }

  predicate CanTurn(q: Queue, turn: Turn) {
    match turn
    case Enter => true
    case Resume(call) => IsIn(q, call, Waiting) && Resolved(q, q.awaited[call])
    case Leave(call) => IsIn(q, call, Running)
  }

  function TurnOf(q: Queue, turn: Turn): Queue
    requires CanTurn(q, turn)
  {
    match turn
    case Enter => Queue(|q.phases|, q.awaited + [q.tail], q.phases + [Waiting])
    case Resume(call) => q.(phases := q.phases[call := Running])
    case Leave(call) => q.(phases := q.phases[call := Settled])
  }

  /** The same variables, updated in place by the parts of a call between its awaits. */
  class WorkerExecution {
    var tail: int
    var awaited: seq<int>
    var phases: seq<Phase>

    function View(): Queue
      reads this
    {
      Queue(tail, awaited, phases)
    }

    constructor ()
      ensures View() == Queue(-1, [], [])
    {
      tail, awaited, phases := -1, [], [];
    }

    /** The part of a call before its await. */
    method Enter() returns (call: nat)
      requires QueueOk(View())
      modifies this
      ensures View() == TurnOf(old(View()), Turn.Enter) && QueueOk(View()) && IsIn(View(), call, Waiting)
    {
      call := |phases|;
      var previous := tail;
      tail := call;
      awaited := awaited + [previous];
      phases := phases + [Waiting];
      TurnKeepsQueue(old(View()), Turn.Enter);
    }

    /** The awaited promise settled, and the work begins. */
    method Resume(call: nat)
      requires QueueOk(View()) && CanTurn(View(), Turn.Resume(call))
      modifies this
      ensures View() == TurnOf(old(View()), Turn.Resume(call)) && QueueOk(View())
    {
      phases := phases[call := Running];
      TurnKeepsQueue(old(View()), Turn.Resume(call));
    }

    /** The work settled either way; finally releases the next call. */
    method Leave(call: nat)
      requires QueueOk(View()) && CanTurn(View(), Turn.Leave(call))
      modifies this
      ensures View() == TurnOf(old(View()), Turn.Leave(call)) && QueueOk(View())
    {
      phases := phases[call := Settled];
      TurnKeepsQueue(old(View()), Turn.Leave(call));
    }
  }

  /** Settled calls, then at most one running, then waiting ones. */
  predicate InOrder(phases: seq<Phase>) {
    forall i, j | 0 <= i < j < |phases| :: !phases[j].Waiting? ==> phases[i].Settled?
  }

  /** Every call awaits the one before it, and the calls are in order. */
  predicate QueueOk(q: Queue) {
    && |q.awaited| == |q.phases| && q.tail == |q.phases| - 1
    && (forall n | 0 <= n < |q.awaited| :: q.awaited[n] == n - 1)
    && InOrder(q.phases)
  }

  lemma TurnKeepsQueue(q: Queue, turn: Turn)
    requires QueueOk(q) && CanTurn(q, turn)
    ensures QueueOk(TurnOf(q, turn))
  {
  }

  predicate Turns(queues: seq<Queue>, turns: seq<Turn>) {
    && |queues| == |turns| + 1 && queues[0] == Queue(-1, [], [])
    && forall n | 0 <= n < |turns| :: CanTurn(queues[n], turns[n]) && queues[n + 1] == TurnOf(queues[n], turns[n])
  }

  lemma {:induction false} ReachableQueue(queues: seq<Queue>, turns: seq<Turn>, n: nat)
    requires Turns(queues, turns) && n < |queues|
    ensures QueueOk(queues[n])
  {
    hide QueueOk, CanTurn, TurnOf;
    if n > 0 {
      ReachableQueue(queues, turns, n - 1);
      TurnKeepsQueue(queues[n - 1], turns[n - 1]);
    } else {
      assert QueueOk(queues[0]) by { NoCallsYet(); }
    }
  }

  lemma NoCallsYet()
    ensures QueueOk(Queue(-1, [], []))
  {
  }

  predicate Started(q: Queue, call: nat) {
    call < |q.phases| && !q.phases[call].Waiting?
  }

  predicate Finished(q: Queue, call: nat) {
    call < |q.phases| && q.phases[call].Settled?
  }

  lemma {:induction false} WasResumed(queues: seq<Queue>, turns: seq<Turn>, n: nat, call: nat) returns (a: nat)
    requires Turns(queues, turns) && n < |queues| && Started(queues[n], call)
    ensures a < n && turns[a] == Resume(call)
  {
    if Started(queues[n - 1], call) {
      a := WasResumed(queues, turns, n - 1, call);
    } else {
      a := n - 1;
    }
  }

  lemma {:induction false} WasLeft(queues: seq<Queue>, turns: seq<Turn>, n: nat, call: nat) returns (l: nat)
    requires Turns(queues, turns) && n < |queues| && Finished(queues[n], call)
    ensures l < n && turns[l] == Leave(call)
  {
    if Finished(queues[n - 1], call) {
      l := WasLeft(queues, turns, n - 1, call);
    } else {
      l := n - 1;
    }
  }

  lemma {:induction false} StaysStarted(queues: seq<Queue>, turns: seq<Turn>, m: nat, n: nat, call: nat)
    requires Turns(queues, turns) && m <= n < |queues| && Started(queues[m], call)
    ensures Started(queues[n], call)
    decreases n
  {
    if m < n {
      StaysStarted(queues, turns, m, n - 1, call);
    }
  }

  /** Whatever order the calls enter and the promises settle in: at any time one work body runs at most, and
      none starts before an earlier call's. */
  lemma OneAtATimeInCallOrder(queues: seq<Queue>, turns: seq<Turn>, n: nat, i: nat, j: nat)
    requires Turns(queues, turns) && n < |queues| && i < j < |queues[n].phases|
    ensures var phases := queues[n].phases;
            && !(phases[i].Running? && phases[j].Running?)
            && (phases[i].Waiting? ==> phases[j].Waiting?)
            && (!phases[i].Settled? && phases[j].Waiting? ==> !phases[j - 1].Settled?)
  {
    ReachableQueue(queues, turns, n);
  }

  /** Work bodies never overlap: a call's work starts once, after the work of every earlier call has started
      and settled. */
  lemma WorkNeverOverlaps(queues: seq<Queue>, turns: seq<Turn>, b: nat, i: nat, j: nat) returns (a: nat, l: nat)
    requires Turns(queues, turns) && b < |turns| && turns[b] == Resume(j) && i < j
    ensures a < l < b && turns[a] == Resume(i) && turns[l] == Leave(i)
    ensures forall c | 0 <= c < b :: turns[c] != Resume(j)
  {
    ReachableQueue(queues, turns, b);
    assert CanTurn(queues[b], turns[b]);
    assert Finished(queues[b], i);
    l := WasLeft(queues, turns, b, i);
    assert CanTurn(queues[l], turns[l]);
    a := WasResumed(queues, turns, l, i);
    forall c | 0 <= c < b ensures turns[c] != Resume(j) {
      if turns[c] == Resume(j) {
        assert CanTurn(queues[c], turns[c]) && queues[c + 1] == TurnOf(queues[c], turns[c]);
        StaysStarted(queues, turns, c + 1, b, j);
      }
    }
  }

  /** No call waits forever for nothing: while some call is unsettled, one of them can go on. */
  lemma SomeCallCanGoOn(queues: seq<Queue>, turns: seq<Turn>, n: nat, call: nat) returns (k: nat)
    requires Turns(queues, turns) && n < |queues| && call < |queues[n].phases| && !Finished(queues[n], call)
    ensures k <= call && (CanTurn(queues[n], Resume(k)) || CanTurn(queues[n], Leave(k)))
  {
    ReachableQueue(queues, turns, n);
    k := call;
    while k > 0 && !Finished(queues[n], k - 1)
      invariant k <= call && !Finished(queues[n], k)
    {
      k := k - 1;
    }
  }

  function Elements(keys: seq<Key>): set<Key> {
    set k | k in keys
  }

  // ---- one call of withJobExecutionLocks -----------------------------------------------------

  /** How a lock query ends; after an error the server may or may not hold the lock. */
  datatype LockReply = Granted | LockFailed(held: bool)

  datatype UnlockReply = Unlocked | UnlockFailed(released: bool)

  datatype Fate = InUse | BackInPool | Destroyed

  /** A pooled connection: the advisory locks its server session holds, and what became of it. */
  class Session {
    ghost var held: set<Key>
    var fate: Fate

    constructor ()
      ensures held == {} && fate == InUse
    {
      held, fate := {}, InUse;
    }

    method Lock(key: Key, reply: LockReply)
      requires fate.InUse?
      modifies this
      ensures fate == old(fate)
      ensures held == if reply.Granted? || reply.held then old(held) + {key} else old(held)
    {
      if reply.Granted? || reply.held { held := held + {key}; }
    }

    method Unlock(key: Key, reply: UnlockReply)
      requires fate.InUse?
      modifies this
      ensures fate == old(fate)
      ensures held == if reply.Unlocked? || reply.released then old(held) - {key} else old(held)
    {
      if reply.Unlocked? || reply.released { held := held - {key}; }
    }

    /** client.release(destroy). */
    method Release(destroy: bool)
      requires fate.InUse?
      modifies this
      ensures fate == if destroy then Destroyed else BackInPool
      ensures held == if destroy then {} else old(held)
    {
      if destroy { held := {}; }
      fate := if destroy then Destroyed else BackInPool;
    }
  }

  /** The critical section: it can only be entered with every lock held. */
  method Work<T>(session: Session, keys: set<Key>, outcome: Result<T, string>) returns (r: Result<T, string>)
    requires session.fate.InUse? && keys <= session.held
    ensures r == outcome
  {
    r := outcome;
  }

  /** Unlocks in reverse order. */
  method UnlockAll(session: Session, acquired: seq<Key>, unlockReply: Key -> UnlockReply) returns (all: bool)
    requires session.fate.InUse? && Sorted(acquired)
    modifies session
    ensures session.fate.InUse?
    ensures all <==> forall k | k in acquired :: unlockReply(k).Unlocked?
    ensures all && old(session.held) == Elements(acquired) ==> session.held == {}
  {
    all := true;
    var left := |acquired|;
    while left > 0
      invariant 0 <= left <= |acquired| && session.fate.InUse?
      invariant all <==> forall i | left <= i < |acquired| :: unlockReply(acquired[i]).Unlocked?
      invariant all && old(session.held) == Elements(acquired) ==> session.held == Elements(acquired[..left])
    {
      left := left - 1;
      session.Unlock(acquired[left], unlockReply(acquired[left]));
      if !unlockReply(acquired[left]).Unlocked? { all := false; }
      AscendingIsInjective(acquired, left);
    }
  }

  /** Whatever the lock queries, the work and the unlock queries do, no lock outlives the call, and the
      session goes back to the pool exactly when every query succeeded. */
  method WithJobExecutionLocks<T>(session: Session, jobs: seq<Key>, lockReply: Key -> LockReply,
                                  unlockReply: Key -> UnlockReply, outcome: Result<T, string>)
    returns (r: Result<T, string>)
    requires session.held == {} && session.fate.InUse?
    modifies session
    ensures session.held == {} && !session.fate.InUse?
    ensures session.fate.BackInPool? <==> forall k | k in jobs :: lockReply(k).Granted? && unlockReply(k).Unlocked?
    ensures r == if forall k | k in jobs :: lockReply(k).Granted? then outcome else Err("LOCK_QUERY_FAILED")
  {
    var keys := LockList(jobs);
    var acquired: seq<Key> := [];
    var destroyClient := false;
    var failed := false;
    for n := 0 to |keys|
      invariant acquired == keys[..n] && session.held == Elements(acquired) && session.fate.InUse? && !failed
      invariant forall i | 0 <= i < n :: lockReply(keys[i]).Granted?
    {
      session.Lock(keys[n], lockReply(keys[n]));
      if !lockReply(keys[n]).Granted? {
        failed := true;
        assert keys[n] in jobs;
        break;
      }
      acquired := acquired + [keys[n]];
    }
    if failed {
      destroyClient := true;
      r := Err("LOCK_QUERY_FAILED");
    } else {
      assert forall k | k in jobs :: k in keys;
      r := Work(session, Elements(keys), outcome);
    }
    var unlocked := UnlockAll(session, acquired, unlockReply);
    if !unlocked { destroyClient := true; }
    session.Release(destroyClient);
  }

  lemma AscendingIsInjective(keys: seq<Key>, n: nat)
    requires Sorted(keys) && n < |keys|
    ensures Elements(keys[..n + 1]) - {keys[n]} == Elements(keys[..n])
  {
    LessIsStrictAndTotal(keys[n], keys[n]);
    forall i | 0 <= i < n ensures keys[i] != keys[n] {
      assert Less(keys[i], keys[n]);
    }
    assert keys[..n + 1] == keys[..n] + [keys[n]];
  }

  /** pg_try_advisory_lock: granted, taken by someone else, or a failed query. */
  datatype TryReply = Acquired | Refused | TryFailed(held: bool)

  method TryWithJobExecutionLock<T>(session: Session, key: Key, tryReply: TryReply, unlockReply: UnlockReply,
                                    outcome: Result<T, string>)
    returns (r: Result<Option<T>, string>)
    requires session.held == {} && session.fate.InUse?
    modifies session
    ensures session.held == {} && !session.fate.InUse?
    ensures session.fate.BackInPool? <==> tryReply.Refused? || (tryReply.Acquired? && unlockReply.Unlocked?)
    ensures match tryReply
            case Refused => r == Ok(None)
            case TryFailed(_) => r == Err("LOCK_QUERY_FAILED")
            case Acquired => r == if outcome.Ok? then Ok(Some(outcome.value)) else Err(outcome.error)
  {
    var acquired := tryReply.Acquired?;
    var destroyClient := false;
    if !tryReply.Refused? {
      session.Lock(key, if acquired then Granted else LockFailed(tryReply.held));
    }
    if acquired {
      var value := Work(session, {key}, outcome);
      r := if value.Ok? then Ok(Some(value.value)) else Err(value.error);
      session.Unlock(key, unlockReply);
      if !unlockReply.Unlocked? { destroyClient := true; }
    } else if tryReply.Refused? {
      r := Ok(None);
    } else {
      destroyClient := true;
      r := Err("LOCK_QUERY_FAILED");
    }
    session.Release(destroyClient);
  }
}
