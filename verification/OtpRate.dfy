/** createOtpChallengeAfterRateCheck: concurrent transactions that lock a device, an address and a phone
    number, count recent challenges, and insert one more. */
module OtpRate {
  import opened Prelude

  /** What a challenge is counted under, in the order its locks are taken. */
  datatype Key = Device(digest: nat) | Ip(digest: nat) | Phone(number: nat, purpose: nat)

  datatype Limits = Limits(phone: nat, ip: nat, device: nat, window: nat)

  datatype Request = Request(phone: nat, purpose: nat, ip: nat, device: nat)

  datatype Row = Row(request: Request, createdAt: nat)

  function LockKeys(r: Request): seq<Key> {
    [Device(r.device), Ip(r.ip), Phone(r.phone, r.purpose)]
  }

  function LimitOf(limits: Limits, key: Key): nat {
    match key
    case Device(_) => limits.device
    case Ip(_) => limits.ip
    case Phone(_, _) => limits.phone
  }

  predicate Under(r: Request, key: Key) {
    key in LockKeys(r)
  }

  /** count(*) FILTER (…) over the rows created in [from, to]. */
  function Count(rows: seq<Row>, key: Key, from: int, to: int): nat {
    if rows == [] then 0
    else
      var last := rows[|rows| - 1];
      Count(rows[..|rows| - 1], key, from, to)
      + (if Under(last.request, key) && from <= last.createdAt <= to then 1 else 0)
  }

  /** A transaction: how many of its locks it holds, and how far it is. */
  datatype Stage = Locking(held: nat) | Counted(at: nat) | Inserted(countedAt: nat, createdAt: nat)

  datatype Tx = Tx(request: Request, stage: Stage)

  function HeldKeys(tx: Tx): seq<Key> {
    if tx.stage.Locking? && tx.stage.held <= 3 then LockKeys(tx.request)[..tx.stage.held] else LockKeys(tx.request)
  }

  datatype State = State(clock: nat, rows: seq<Row>, txs: map<nat, Tx>)

  datatype Step = Begin(tx: nat, request: Request) | Lock(tx: nat) | CountRows(tx: nat) | Insert(tx: nat)
                | Commit(tx: nat) | Abort(tx: nat)

  predicate Free(s: State, key: Key) {
    forall t | t in s.txs :: key !in HeldKeys(s.txs[t])
  }

  /** The three counts of one statement, taken over the committed rows. */
  predicate BelowLimits(rows: seq<Row>, r: Request, limits: Limits, now: nat) {
    && Count(rows, Phone(r.phone, r.purpose), now - limits.window, now) < limits.phone
    && Count(rows, Ip(r.ip), now - limits.window, now) < limits.ip
    && Count(rows, Device(r.device), now - limits.window, now) < limits.device
  }

  predicate Next(s: State, limits: Limits, step: Step, s': State) {
    && s'.clock >= s.clock
    && match step
       case Begin(t, request) => t !in s.txs && s' == s.(clock := s'.clock, txs := s.txs[t := Tx(request, Locking(0))])
       case Lock(t) =>
         && t in s.txs && s.txs[t].stage.Locking? && s.txs[t].stage.held < 3
         && Free(s, LockKeys(s.txs[t].request)[s.txs[t].stage.held])
         && s' == s.(clock := s'.clock, txs := s.txs[t := s.txs[t].(stage := Locking(s.txs[t].stage.held + 1))])
       case CountRows(t) =>
         && t in s.txs && s.txs[t].stage == Locking(3)
         && s' == s.(clock := s'.clock,
                     txs := if BelowLimits(s.rows, s.txs[t].request, limits, s'.clock)
                            then s.txs[t := s.txs[t].(stage := Counted(s'.clock))]
                            else s.txs - {t})
       case Insert(t) =>
         && t in s.txs && s.txs[t].stage.Counted?
         && s' == s.(clock := s'.clock, txs := s.txs[t := s.txs[t].(stage := Inserted(s.txs[t].stage.at, s'.clock))])
       case Commit(t) =>
         && t in s.txs && s.txs[t].stage.Inserted?
         && s' == s.(clock := s'.clock, rows := s.rows + [Row(s.txs[t].request, s.txs[t].stage.createdAt)],
                     txs := s.txs - {t})
       case Abort(t) => t in s.txs && s' == s.(clock := s'.clock, txs := s.txs - {t})
  }

  predicate Execution(limits: Limits, states: seq<State>, steps: seq<Step>) {
    |states| == |steps| + 1 && states[0].rows == [] && states[0].txs == map[]
    && forall i | 0 <= i < |steps| :: Next(states[i], limits, steps[i], states[i + 1])
  }

  // ---- counting ------------------------------------------------------------------------------

  lemma CountAppends(rows: seq<Row>, row: Row, key: Key, a: int, b: int)
    ensures Count(rows + [row], key, a, b)
            == Count(rows, key, a, b) + (if Under(row.request, key) && a <= row.createdAt <= b then 1 else 0)
  {
    assert (rows + [row])[..|rows|] == rows;
  }

  // ---- the invariant -------------------------------------------------------------------------

  ghost predicate LocksExclude(s: State) {
    && (forall t | t in s.txs && s.txs[t].stage.Locking? :: s.txs[t].stage.held <= 3)
    && (forall t, u, k | t in s.txs && u in s.txs && k in HeldKeys(s.txs[t]) && k in HeldKeys(s.txs[u]) :: t == u)
  }

  /** What a transaction has counted still bounds the committed rows under its keys. */
  predicate StillBelow(rows: seq<Row>, tx: Tx, limits: Limits, at: nat) {
    && (forall i | 0 <= i < |rows| && rows[i].createdAt > at :: !Shares(rows[i].request, tx.request))
    && BelowLimits(rows, tx.request, limits, at)
  }

  predicate Shares(a: Request, b: Request) {
    a.device == b.device || a.ip == b.ip || (a.phone == b.phone && a.purpose == b.purpose)
  }

  ghost predicate CountsHold(s: State, limits: Limits) {
    forall t | t in s.txs && !s.txs[t].stage.Locking? ::
      if s.txs[t].stage.Counted?
      then s.txs[t].stage.at <= s.clock && StillBelow(s.rows, s.txs[t], limits, s.txs[t].stage.at)
      else s.txs[t].stage.countedAt <= s.txs[t].stage.createdAt <= s.clock
           && StillBelow(s.rows, s.txs[t], limits, s.txs[t].stage.countedAt)
  }

  predicate RowsPast(s: State) {
    forall i | 0 <= i < |s.rows| :: s.rows[i].createdAt <= s.clock
  }

  ghost predicate WindowsHold(rows: seq<Row>, limits: Limits) {
    forall key: Key, a: int :: WindowHolds(rows, limits, key, a)
  }

  predicate WindowHolds(rows: seq<Row>, limits: Limits, key: Key, a: int) {
    Count(rows, key, a, a + limits.window) <= LimitOf(limits, key)
  }

  ghost predicate Inv(s: State, limits: Limits) {
    LocksExclude(s) && CountsHold(s, limits) && RowsPast(s) && WindowsHold(s.rows, limits)
  }

  lemma LocksStayExclusive(s: State, limits: Limits, step: Step, s': State)
    requires LocksExclude(s) && Next(s, limits, step, s')
    ensures LocksExclude(s')
  {
    hide BelowLimits;
    if step.Lock? {
      var t := step.tx;
      assert HeldKeys(s'.txs[t]) == HeldKeys(s.txs[t]) + [LockKeys(s.txs[t].request)[s.txs[t].stage.held]];
    }
  }

  /** Transactions past the count hold all three locks, so none of them shares a key with another. */
  lemma CountedShareNothing(s: State, t: nat, u: nat)
    requires LocksExclude(s) && t in s.txs && u in s.txs && t != u
    requires !s.txs[t].stage.Locking? && !s.txs[u].stage.Locking?
    ensures !Shares(s.txs[t].request, s.txs[u].request)
  {
    var a, b := s.txs[t].request, s.txs[u].request;
    assert HeldKeys(s.txs[t]) == LockKeys(a) && HeldKeys(s.txs[u]) == LockKeys(b);
    assert LockKeys(a)[0] in LockKeys(a) && LockKeys(a)[1] in LockKeys(a) && LockKeys(a)[2] in LockKeys(a);
    assert LockKeys(b)[0] in LockKeys(b) && LockKeys(b)[1] in LockKeys(b) && LockKeys(b)[2] in LockKeys(b);
  }

  /** A row that shares nothing with a transaction leaves what it counted alone. */
  lemma ForeignRowKeepsCount(rows: seq<Row>, row: Row, tx: Tx, limits: Limits, at: nat)
    requires StillBelow(rows, tx, limits, at) && !Shares(row.request, tx.request)
    ensures StillBelow(rows + [row], tx, limits, at)
  {
    hide Count;
    var r := tx.request;
    CountAppends(rows, row, Phone(r.phone, r.purpose), at - limits.window, at);
    CountAppends(rows, row, Ip(r.ip), at - limits.window, at);
    CountAppends(rows, row, Device(r.device), at - limits.window, at);
  }

  lemma CountsStayValid(s: State, limits: Limits, step: Step, s': State)
    requires LocksExclude(s) && CountsHold(s, limits) && RowsPast(s) && Next(s, limits, step, s')
    ensures CountsHold(s', limits)
  {
    hide BelowLimits, LocksExclude;
    if step.Commit? {
      var row := Row(s.txs[step.tx].request, s.txs[step.tx].stage.createdAt);
      forall t | t in s'.txs && !s'.txs[t].stage.Locking?
        ensures var at := if s.txs[t].stage.Counted? then s.txs[t].stage.at else s.txs[t].stage.countedAt;
                StillBelow(s'.rows, s.txs[t], limits, at)
      {
        var at := if s.txs[t].stage.Counted? then s.txs[t].stage.at else s.txs[t].stage.countedAt;
        CountedShareNothing(s, step.tx, t);
        ForeignRowKeepsCount(s.rows, row, s.txs[t], limits, at);
      }
    }
  }

  /** The committed row is the last one of its keys: every window it falls into reaches back no further than
      what was counted. */
  lemma CommitKeepsWindows(rows: seq<Row>, tx: Tx, limits: Limits, key: Key, a: int)
    requires WindowHolds(rows, limits, key, a) && tx.stage.Inserted? && tx.stage.countedAt <= tx.stage.createdAt
    requires StillBelow(rows, tx, limits, tx.stage.countedAt)
    ensures WindowHolds(rows + [Row(tx.request, tx.stage.createdAt)], limits, key, a)
  {
    var at, row := tx.stage.countedAt, Row(tx.request, tx.stage.createdAt);
    CountAppends(rows, row, key, a, a + limits.window);
    if Under(tx.request, key) && a <= row.createdAt <= a + limits.window {
      SharedRowsAreCounted(rows, tx.request, key, a, a + limits.window, at - limits.window, at);
    }
  }

  lemma {:induction false} SharedRowsAreCounted(rows: seq<Row>, r: Request, key: Key, a: int, b: int, from: int,
                                                to: int)
    requires Under(r, key) && from <= a
    requires forall i | 0 <= i < |rows| && rows[i].createdAt > to :: !Shares(rows[i].request, r)
    ensures Count(rows, key, a, b) <= Count(rows, key, from, to)
  {
    if rows != [] {
      SharedRowsAreCounted(rows[..|rows| - 1], r, key, a, b, from, to);
    }
  }

  lemma StepKeepsInv(s: State, limits: Limits, step: Step, s': State)
    requires Inv(s, limits) && Next(s, limits, step, s')
    ensures Inv(s', limits)
  {
    hide BelowLimits, Count, LocksExclude;
    LocksStayExclusive(s, limits, step, s');
    CountsStayValid(s, limits, step, s');
    if step.Commit? {
      forall key: Key, a: int ensures WindowHolds(s'.rows, limits, key, a) {
        CommitKeepsWindows(s.rows, s.txs[step.tx], limits, key, a);
      }
    }
  }

  lemma {:induction false} ReachableInv(limits: Limits, states: seq<State>, steps: seq<Step>, i: nat)
    requires Execution(limits, states, steps) && i < |states|
    ensures Inv(states[i], limits)
  {
    hide Next;
    if i > 0 {
      ReachableInv(limits, states, steps, i - 1);
      StepKeepsInv(states[i - 1], limits, steps[i - 1], states[i]);
    }
  }

  /** In every reachable state, every closed window of the given length holds at most the limit of challenges
      of each phone and purpose, each address and each device. */
  lemma RateLimitHolds(limits: Limits, states: seq<State>, steps: seq<Step>, i: nat, key: Key, a: int)
    requires Execution(limits, states, steps) && i < |states|
    ensures Count(states[i].rows, key, a, a + limits.window) <= LimitOf(limits, key)
  {
    hide Next;
    ReachableInv(limits, states, steps, i);
    assert WindowHolds(states[i].rows, limits, key, a);
  }

  // ---- what is let through -------------------------------------------------------------------

  /** A challenge counts under its device, its address, and its phone number for the same purpose. */
  predicate CountsUnder(row: Row, key: Key) {
    match key
    case Device(digest) => row.request.device == digest
    case Ip(digest) => row.request.ip == digest
    case Phone(number, purpose) => row.request.phone == number && row.request.purpose == purpose
  }

  predicate Counts(rows: seq<Row>, i: int, key: Key, from: int, to: int) {
    0 <= i < |rows| && CountsUnder(rows[i], key) && from <= rows[i].createdAt <= to
  }

  lemma KeysOfRequest(row: Row, key: Key)
    ensures Under(row.request, key) <==> CountsUnder(row, key)
  {
    var keys := LockKeys(row.request);
    assert keys[0].Device? && keys[1].Ip? && keys[2].Phone?;
  }

  /** A count is the number of challenges under its key that were created within its window, ends included. */
  lemma {:induction false} CountExactly(rows: seq<Row>, key: Key, from: int, to: int)
    ensures Count(rows, key, from, to) == |set i | 0 <= i < |rows| && Counts(rows, i, key, from, to)|
  {
    hide Under, CountsUnder;
    var found := set i | 0 <= i < |rows| && Counts(rows, i, key, from, to);
    if rows != [] {
      var n := |rows| - 1;
      CountExactly(rows[..n], key, from, to);
      KeysOfRequest(rows[n], key);
      var before := set i | 0 <= i < |rows[..n]| && Counts(rows[..n], i, key, from, to);
      assert forall i | 0 <= i < n :: Counts(rows[..n], i, key, from, to) <==> Counts(rows, i, key, from, to);
      assert found == if Counts(rows, n, key, from, to) then before + {n} else before;
    }
  }

  /** Some window that ends now already holds what is allowed. */
  predicate LimitReached(rows: seq<Row>, r: Request, limits: Limits, now: nat) {
    || Count(rows, Phone(r.phone, r.purpose), now - limits.window, now) >= limits.phone
    || Count(rows, Ip(r.ip), now - limits.window, now) >= limits.ip
    || Count(rows, Device(r.device), now - limits.window, now) >= limits.device
  }

  ghost predicate Reaches(limits: Limits, s: State, s': State) {
    exists states: seq<State>, steps: seq<Step> ::
      && |states| == |steps| + 1 && states[0] == s && states[|steps|] == s'
      && forall i | 0 <= i < |steps| :: Next(states[i], limits, steps[i], states[i + 1])
  }

  /** Where a new transaction stands that counts at the present time. */
  function Stands(s: State, t: nat, request: Request, stage: Stage): State {
    s.(txs := s.txs[t := Tx(request, stage)])
  }

  /** Nobody is refused below the limits, and everybody at them: a new request whose keys nobody holds commits
      its challenge if no limit is reached, and otherwise ends at its count without any. */
  lemma RequestsExactly(s: State, limits: Limits, t: nat, request: Request)
    requires t !in s.txs && forall k | k in LockKeys(request) :: Free(s, k)
    ensures !LimitReached(s.rows, request, limits, s.clock) ==>
              Reaches(limits, s, s.(rows := s.rows + [Row(request, s.clock)]))
    ensures Reaches(limits, s, Stands(s, t, request, Locking(3)))
    ensures forall s' | Next(Stands(s, t, request, Locking(3)), limits, CountRows(t), s') ::
              LimitReached(s.rows, request, limits, s'.clock) <==> t !in s'.txs
  {
    hide Reaches, Next, LimitReached, Stands;
    LocksAreTaken(s, limits, t, request);
    StaysThere(limits, s);
    OneMoreStep(limits, s, s, Begin(t, request), Stands(s, t, request, Locking(0)));
    OneMoreStep(limits, s, Stands(s, t, request, Locking(0)), Lock(t), Stands(s, t, request, Locking(1)));
    OneMoreStep(limits, s, Stands(s, t, request, Locking(1)), Lock(t), Stands(s, t, request, Locking(2)));
    OneMoreStep(limits, s, Stands(s, t, request, Locking(2)), Lock(t), Stands(s, t, request, Locking(3)));
    if !LimitReached(s.rows, request, limits, s.clock) {
      var counted := Stands(s, t, request, Counted(s.clock));
      var inserted := Stands(s, t, request, Inserted(s.clock, s.clock));
      ChallengeIsCommitted(s, limits, t, request);
      OneMoreStep(limits, s, Stands(s, t, request, Locking(3)), CountRows(t), counted);
      OneMoreStep(limits, s, counted, Insert(t), inserted);
      OneMoreStep(limits, s, inserted, Commit(t), s.(rows := s.rows + [Row(request, s.clock)]));
    }
    forall s' | Next(Stands(s, t, request, Locking(3)), limits, CountRows(t), s')
      ensures LimitReached(s.rows, request, limits, s'.clock) <==> t !in s'.txs
    {
      CountDecides(s, limits, t, request, s');
    }
  }

  lemma CountDecides(s: State, limits: Limits, t: nat, request: Request, s': State)
    requires Next(Stands(s, t, request, Locking(3)), limits, CountRows(t), s')
    ensures LimitReached(s.rows, request, limits, s'.clock) <==> t !in s'.txs
  {
    hide Count;
  }

  lemma StaysThere(limits: Limits, s: State)
    ensures Reaches(limits, s, s)
  {
    var states, steps: seq<Step> := [s], [];
    assert states[|steps|] == s;
  }

  lemma OneMoreStep(limits: Limits, s: State, m: State, step: Step, s': State)
    requires Reaches(limits, s, m) && Next(m, limits, step, s')
    ensures Reaches(limits, s, s')
  {
    hide Next;
    var states: seq<State>, steps: seq<Step> :| |states| == |steps| + 1 && states[0] == s && states[|steps|] == m
      && forall i | 0 <= i < |steps| :: Next(states[i], limits, steps[i], states[i + 1]);
    var longer, more := states + [s'], steps + [step];
    forall i | 0 <= i < |more| ensures Next(longer[i], limits, more[i], longer[i + 1]) {
      if i < |steps| {
        assert longer[i] == states[i] && longer[i + 1] == states[i + 1] && more[i] == steps[i];
      }
    }
    assert longer[|more|] == s' && longer[0] == s;
  }

  lemma LocksAreTaken(s: State, limits: Limits, t: nat, request: Request)
    requires t !in s.txs && forall k | k in LockKeys(request) :: Free(s, k)
    ensures Next(s, limits, Begin(t, request), Stands(s, t, request, Locking(0)))
    ensures forall n: nat | n < 3 ::
              Next(Stands(s, t, request, Locking(n)), limits, Lock(t), Stands(s, t, request, Locking(n + 1)))
  {
    forall n: nat | n < 3
      ensures Next(Stands(s, t, request, Locking(n)), limits, Lock(t), Stands(s, t, request, Locking(n + 1)))
    {
      var here := Stands(s, t, request, Locking(n));
      var key := LockKeys(request)[n];
      assert key in LockKeys(request) && Free(s, key);
      forall u | u in here.txs ensures key !in HeldKeys(here.txs[u]) {
        if u == t { KeysDiffer(request, n); }
      }
    }
  }

  lemma KeysDiffer(request: Request, n: nat)
    requires n < 3
    ensures LockKeys(request)[n] !in LockKeys(request)[..n]
  {
    assert LockKeys(request)[0].Device? && LockKeys(request)[1].Ip? && LockKeys(request)[2].Phone?;
  }

  lemma ChallengeIsCommitted(s: State, limits: Limits, t: nat, request: Request)
    requires t !in s.txs && !LimitReached(s.rows, request, limits, s.clock)
    ensures Next(Stands(s, t, request, Locking(3)), limits, CountRows(t), Stands(s, t, request, Counted(s.clock)))
    ensures Next(Stands(s, t, request, Counted(s.clock)), limits, Insert(t),
                 Stands(s, t, request, Inserted(s.clock, s.clock)))
    ensures Next(Stands(s, t, request, Inserted(s.clock, s.clock)), limits, Commit(t),
                 s.(rows := s.rows + [Row(request, s.clock)]))
  {
    hide Count;
    assert s.txs[t := Tx(request, Inserted(s.clock, s.clock))] - {t} == s.txs;
  }

  // ---- without the locks ---------------------------------------------------------------------

  /** The same transactions without pg_advisory_xact_lock: a transaction counts right after it began. */
  predicate NextUnlocked(s: State, limits: Limits, step: Step, s': State) {
    if step.CountRows? then
      && s'.clock >= s.clock && step.tx in s.txs && s.txs[step.tx].stage.Locking?
      && s' == s.(clock := s'.clock,
                  txs := if BelowLimits(s.rows, s.txs[step.tx].request, limits, s'.clock)
                         then s.txs[step.tx := s.txs[step.tx].(stage := Counted(s'.clock))]
                         else s.txs - {step.tx})
    else !step.Lock? && Next(s, limits, step, s')
  }

  predicate UnlockedExecution(limits: Limits, states: seq<State>, steps: seq<Step>) {
    |states| == |steps| + 1 && states[0].rows == [] && states[0].txs == map[]
    && forall i | 0 <= i < |steps| :: NextUnlocked(states[i], limits, steps[i], states[i + 1])
  }

  ghost predicate UnlockedReachable(limits: Limits, s: State) {
    exists states: seq<State>, steps: seq<Step> :: UnlockedExecution(limits, states, steps) && states[|steps|] == s
  }

  lemma UnlockedStepReaches(limits: Limits, s: State, step: Step, s': State)
    requires UnlockedReachable(limits, s) && NextUnlocked(s, limits, step, s')
    ensures UnlockedReachable(limits, s')
  {
    hide NextUnlocked;
    var states: seq<State>, steps: seq<Step> :| UnlockedExecution(limits, states, steps) && states[|steps|] == s;
    var longer, more := states + [s'], steps + [step];
    forall i | 0 <= i < |more| ensures NextUnlocked(longer[i], limits, more[i], longer[i + 1]) {
      if i < |steps| {
        assert longer[i] == states[i] && longer[i + 1] == states[i + 1] && more[i] == steps[i];
      }
    }
    assert UnlockedExecution(limits, longer, more) && longer[|more|] == s';
  }

  /** Transactions 1 to n counted one after the other, and the first k of them have committed since. */
  function Crowd(r: Request, k: nat, n: nat): State {
    State(n, seq(k, _ => Row(r, n)), map t: nat | k < t <= n :: Tx(r, Counted(t)))
  }

  predicate Positive(limits: Limits) {
    limits.phone > 0 && limits.ip > 0 && limits.device > 0
  }

  lemma {:induction false} AllCount(limits: Limits, r: Request, n: nat)
    requires Positive(limits)
    ensures UnlockedReachable(limits, Crowd(r, 0, n))
  {
    hide UnlockedReachable;
    if n == 0 {
      NothingYet(limits, r);
    } else {
      AllCount(limits, r, n - 1);
      var s := Crowd(r, 0, n - 1);
      var begun := s.(txs := s.txs[n := Tx(r, Locking(0))]);
      UnlockedStepReaches(limits, s, Begin(n, r), begun);
      var counted := State(n, [], begun.txs[n := Tx(r, Counted(n))]);
      assert BelowLimits([], r, limits, n) && s.rows == [];
      UnlockedStepReaches(limits, begun, CountRows(n), counted);
      assert counted == Crowd(r, 0, n);
    }
  }

  lemma NothingYet(limits: Limits, r: Request)
    ensures UnlockedReachable(limits, Crowd(r, 0, 0))
  {
    assert UnlockedExecution(limits, [Crowd(r, 0, 0)], []);
  }

  lemma {:induction false} AllCommit(limits: Limits, r: Request, k: nat, n: nat)
    requires Positive(limits) && k <= n
    ensures UnlockedReachable(limits, Crowd(r, k, n))
    decreases k
  {
    hide UnlockedReachable;
    if k == 0 {
      AllCount(limits, r, n);
    } else {
      AllCommit(limits, r, k - 1, n);
      var s := Crowd(r, k - 1, n);
      var inserted := s.(txs := s.txs[k := Tx(r, Inserted(k, n))]);
      UnlockedStepReaches(limits, s, Insert(k), inserted);
      var committed := State(n, s.rows + [Row(r, n)], inserted.txs - {k});
      UnlockedStepReaches(limits, inserted, Commit(k), committed);
      assert committed.rows == Crowd(r, k, n).rows;
      assert committed.txs == Crowd(r, k, n).txs;
    }
  }

  lemma {:induction false} CrowdIsCounted(r: Request, k: nat, n: nat, key: Key, window: nat)
    requires key in LockKeys(r) && k <= n
    ensures Count(Crowd(r, k, n).rows, key, n, n + window) == k
    decreases k
  {
    if k > 0 {
      CrowdIsCounted(r, k - 1, n, key, window);
      assert Crowd(r, k, n).rows[..k - 1] == Crowd(r, k - 1, n).rows;
    }
  }

  /** Counting alone limits nothing: without the locks any number of challenges for one phone, address and
      device can be committed within one window, whatever the limits are. */
  lemma UnlockedCountsOvershoot(limits: Limits, r: Request, n: nat)
    requires Positive(limits)
    ensures exists s :: UnlockedReachable(limits, s)
                        && forall key | key in LockKeys(r) :: Count(s.rows, key, s.clock, s.clock + limits.window) == n
  {
    hide UnlockedReachable, Count;
    AllCommit(limits, r, n, n);
    forall key | key in LockKeys(r) ensures Count(Crowd(r, n, n).rows, key, n, n + limits.window) == n {
      CrowdIsCounted(r, n, n, key, limits.window);
    }
  }
}
