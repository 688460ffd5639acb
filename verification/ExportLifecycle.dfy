/** Export requests of one shop: generation under the job lock, failure, cancellation, revocation by
    membership changes, single-use download grants, and the clean-up of objects no commit refers to. */
module ExportLifecycle {
  import opened Prelude

  datatype Status = Queued | Running | Succeeded | Failed | Cancelled | Revoked

  /** export_request: a customer's export remembers the membership epoch it was created at. */
  datatype Export = Export(status: Status, requestedBy: nat, epoch: Option<nat>)

  datatype Grant = Grant(id: nat, account: nat, epoch: Option<nat>, expiresAt: nat, consumed: bool, revoked: bool)

  datatype Membership = Membership(epoch: nat, mayExport: bool)

  /** Staff act by role, customers through their membership. */
  datatype Actor = Staff(account: nat) | Customer(account: nat)

  /** The rows, and the object store; an export's object has the export's id. */
  datatype Tables = Tables(
    exports: map<nat, Export>,
    grants: map<nat, Grant>,
    members: map<nat, Membership>,
    stored: set<nat>,              // stored_object rows
    files: set<nat>                // objects the store holds
  )

  const GRANT_SECONDS := 300

  predicate Unfinished(status: Status) {
    status.Queued? || status.Running?
  }

  // ---- authorization -------------------------------------------------------------------------

  /** authorizeCreate, for actors the role matrix admits. */
  predicate HasAccess(t: Tables, actor: Actor) {
    actor.Staff? || (actor.account in t.members && t.members[actor.account].mayExport)
  }

  function Binding(t: Tables, actor: Actor): Option<nat>
    requires HasAccess(t, actor)
  {
    if actor.Customer? then Some(t.members[actor.account].epoch) else None
  }

  /** requireExportJobActor. */
  predicate MayTouch(t: Tables, actor: Actor, id: nat) {
    && HasAccess(t, actor) && id in t.exports && !t.exports[id].status.Revoked?
    && (actor.Customer? ==> t.exports[id].requestedBy == actor.account
                            && t.exports[id].epoch == Binding(t, actor))
  }

  // ---- transactions --------------------------------------------------------------------------

  function SetStatus(t: Tables, id: nat, status: Status): Tables
    requires id in t.exports
  {
    t.(exports := t.exports[id := t.exports[id].(status := status)])
  }

  function CreateOf(t: Tables, actor: Actor, id: nat): Tables {
    if HasAccess(t, actor) && id !in t.exports
    then t.(exports := t.exports[id := Export(Queued, actor.account, Binding(t, actor))])
    else t
  }

  function CancelOf(t: Tables, actor: Actor, id: nat): Tables {
    if MayTouch(t, actor, id) && Unfinished(t.exports[id].status) then SetStatus(t, id, Cancelled) else t
  }

  function ClaimOf(t: Tables, id: nat): Tables {
    if id in t.exports && Unfinished(t.exports[id].status) then SetStatus(t, id, Running) else t
  }

  function FailOf(t: Tables, id: nat): Tables {
    if id in t.exports && Unfinished(t.exports[id].status) then SetStatus(t, id, Failed) else t
  }

  /** A second stored_object row would violate its primary key and roll back. */
  predicate CanCommit(t: Tables, id: nat) {
    id in t.exports && t.exports[id].status.Running? && id !in t.stored
  }

  function CommitOf(t: Tables, id: nat): Tables {
    if CanCommit(t, id) then SetStatus(t, id, Succeeded).(stored := t.stored + {id}) else t
  }

  predicate CanGrant(t: Tables, actor: Actor, id: nat) {
    MayTouch(t, actor, id) && t.exports[id].status.Succeeded?
  }

  function GrantOf(t: Tables, actor: Actor, id: nat, grant: nat, now: nat): Tables {
    if CanGrant(t, actor, id) && grant !in t.grants
    then t.(grants := t.grants[grant := Grant(id, actor.account, Binding(t, actor), now + GRANT_SECONDS, false, false)])
    else t
  }

  predicate CanDownload(t: Tables, actor: Actor, grant: nat, now: nat) {
    && grant in t.grants && t.grants[grant].account == actor.account
    && MayTouch(t, actor, t.grants[grant].id)
    && t.exports[t.grants[grant].id].status.Succeeded? && t.grants[grant].id in t.stored
    && !t.grants[grant].consumed && !t.grants[grant].revoked && t.grants[grant].expiresAt > now
    && t.grants[grant].epoch == Binding(t, actor)
  }

  function DownloadOf(t: Tables, actor: Actor, grant: nat, now: nat): Tables {
    if CanDownload(t, actor, grant, now)
    then t.(grants := t.grants[grant := t.grants[grant].(consumed := true)])
    else t
  }

  predicate Stale(epoch: Option<nat>, current: nat) {
    epoch.Some? && epoch.value != current
  }

  function InvalidatedExport(e: Export, account: nat, epoch: nat): Export {
    if e.requestedBy == account && (Unfinished(e.status) || e.status.Succeeded?) && Stale(e.epoch, epoch)
    then e.(status := Revoked) else e
  }

  function InvalidatedGrant(g: Grant, account: nat, epoch: nat): Grant {
    if g.account == account && !g.consumed && Stale(g.epoch, epoch) then g.(revoked := true) else g
  }

  /** invalidateForMembership. */
  function InvalidateOf(t: Tables, account: nat, epoch: nat): Tables {
    t.(exports := map e | e in t.exports :: InvalidatedExport(t.exports[e], account, epoch),
       grants := map g | g in t.grants :: InvalidatedGrant(t.grants[g], account, epoch))
  }

  /** A revocation, a re-activation or a change of export_allowed: the epoch moves on. Only granting
      export_allowed leaves the artifacts of the old epoch alone. */
  function ChangeMemberOf(t: Tables, account: nat, mayExport: bool, invalidate: bool): Tables {
    var epoch := if account in t.members then t.members[account].epoch + 1 else 1;
    var changed := t.(members := t.members[account := Membership(epoch, mayExport)]);
    if invalidate then InvalidateOf(changed, account, epoch) else changed
  }

  /** Who may act on an export: staff unless it was revoked, and the customer who asked for it, as long as that
      customer may export and its membership is the one it asked with. */
  predicate Allowed(t: Tables, actor: Actor, id: nat) {
    && id in t.exports && t.exports[id].status != Revoked
    && match actor
       case Staff(_) => true
       case Customer(account) =>
         account in t.members && t.members[account].mayExport && t.exports[id].requestedBy == account
         && t.exports[id].epoch == Some(t.members[account].epoch)
  }

  lemma AllowedExactly(t: Tables, actor: Actor, id: nat)
    ensures MayTouch(t, actor, id) <==> Allowed(t, actor, id)
  {
  }

  /** What a grant or an export is bound to. */
  function Epoch(t: Tables, actor: Actor): Option<nat> {
    if actor.Customer? && actor.account in t.members then Some(t.members[actor.account].epoch) else None
  }

  /** A grant that is still good for a download: unused, not revoked, not expired, and of the actor's own. */
  predicate Good(t: Tables, actor: Actor, grant: nat, now: nat) {
    && grant in t.grants && t.grants[grant].account == actor.account && t.grants[grant].epoch == Epoch(t, actor)
    && !t.grants[grant].consumed && !t.grants[grant].revoked && now < t.grants[grant].expiresAt
  }

  lemma DownloadableExactly(t: Tables, actor: Actor, grant: nat, now: nat)
    ensures CanDownload(t, actor, grant, now) <==>
              && Good(t, actor, grant, now) && Allowed(t, actor, t.grants[grant].id)
              && t.exports[t.grants[grant].id].status == Succeeded && t.grants[grant].id in t.stored
  {
  }

  /** A request is queued in its requester's name, a customer's bound to the membership it was made with; whoever
      made it may act on it, and nobody's request replaces another. */
  lemma CreatedExactly(t: Tables, actor: Actor, id: nat)
    ensures CreateOf(t, actor, id) == t || id !in t.exports
    ensures id !in t.exports ==>
              match actor
              case Staff(account) =>
                CreateOf(t, actor, id) == t.(exports := t.exports[id := Export(Queued, account, None)])
              case Customer(account) =>
                if account in t.members && t.members[account].mayExport then
                  CreateOf(t, actor, id)
                  == t.(exports := t.exports[id := Export(Queued, account, Some(t.members[account].epoch))])
                else CreateOf(t, actor, id) == t
    ensures id !in t.exports ==> (Allowed(CreateOf(t, actor, id), actor, id) <==> CreateOf(t, actor, id) != t)
  {
    if id !in t.exports && HasAccess(t, actor) {
      assert id in CreateOf(t, actor, id).exports;
    }
  }

  /** The same transactions as updates of rows in place. */
  class ExportStore {
    var exports: map<nat, Export>
    var grants: map<nat, Grant>
    var members: map<nat, Membership>
    var stored: set<nat>
    var files: set<nat>

    function View(): Tables
      reads this
    {
      Tables(exports, grants, members, stored, files)
    }

    constructor ()
      ensures View() == Tables(map[], map[], map[], {}, {})
    {
      exports, grants, members, stored, files := map[], map[], map[], {}, {};
    }

    method Cancel(actor: Actor, id: nat) returns (r: Result<bool, string>)
      modifies this`exports
      ensures View() == CancelOf(old(View()), actor, id)
      ensures r.Ok? <==> Allowed(old(View()), actor, id)
      ensures r.Ok? ==> (r.value <==> old(exports)[id].status in {Queued, Running})
      ensures exports == if r.Ok? && r.value then old(exports)[id := old(exports)[id].(status := Cancelled)]
                         else old(exports)
    {
      AllowedExactly(View(), actor, id);
      if !MayTouch(View(), actor, id) { return Err("AUTHORIZATION"); }
      var changed := Unfinished(exports[id].status);
      if changed {
        exports := exports[id := exports[id].(status := Cancelled)];
      }
      return Ok(changed);
    }

    method CreateDownloadToken(actor: Actor, id: nat, grant: nat, now: nat) returns (r: Result<nat, string>)
      requires grant !in grants
      modifies this`grants
      ensures View() == GrantOf(old(View()), actor, id, grant, now)
      ensures r == if !Allowed(old(View()), actor, id) then Err("AUTHORIZATION")
                   else if exports[id].status != Succeeded then Err("EXPORT_NOT_READY") else Ok(grant)
      ensures grants == if r.Err? then old(grants)
                        else old(grants)[grant := Grant(id, actor.account, Epoch(View(), actor), now + 300, false,
                                                        false)]
    {
      AllowedExactly(View(), actor, id);
      if !MayTouch(View(), actor, id) { return Err("AUTHORIZATION"); }
      if !exports[id].status.Succeeded? { return Err("EXPORT_NOT_READY"); }
      var epoch := if actor.Customer? then Some(members[actor.account].epoch) else None;
      grants := grants[grant := Grant(id, actor.account, epoch, now + GRANT_SECONDS, false, false)];
      return Ok(grant);
    }

    method Download(actor: Actor, grant: nat, now: nat) returns (r: Result<nat, string>)
      modifies this`grants
      ensures View() == DownloadOf(old(View()), actor, grant, now)
      ensures r.Ok? <==> Good(old(View()), actor, grant, now) && Allowed(View(), actor, old(grants)[grant].id)
                         && exports[old(grants)[grant].id].status == Succeeded && old(grants)[grant].id in stored
      ensures r.Ok? ==> r.value == old(grants)[grant].id
                        && grants == old(grants)[grant := old(grants)[grant].(consumed := true)]
      ensures r.Err? ==> r.error == "AUTHORIZATION" && grants == old(grants)
    {
      DownloadableExactly(View(), actor, grant, now);
      if grant !in grants || grants[grant].account != actor.account { return Err("AUTHORIZATION"); }
      var id := grants[grant].id;
      if !MayTouch(View(), actor, id) { return Err("AUTHORIZATION"); }
      if !exports[id].status.Succeeded? || id !in stored { return Err("AUTHORIZATION"); }
      var g := grants[grant];
      var epoch := if actor.Customer? then Some(members[actor.account].epoch) else None;
      if g.consumed || g.revoked || g.expiresAt <= now || g.epoch != epoch { return Err("AUTHORIZATION"); }
      grants := grants[grant := g.(consumed := true)];
      return Ok(id);
    }

    method Fail(id: nat)
      modifies this`exports
      ensures View() == FailOf(old(View()), id)
      ensures exports == if id in old(exports) && old(exports)[id].status in {Queued, Running}
                         then old(exports)[id := old(exports)[id].(status := Failed)] else old(exports)
    {
      if id in exports && (exports[id].status.Queued? || exports[id].status.Running?) {
        exports := exports[id := exports[id].(status := Failed)];
      }
    }

    /** A membership change, and with it invalidateForMembership's two updates. */
    method ChangeMember(account: nat, mayExport: bool, invalidate: bool) returns (epoch: nat)
      modifies this
      ensures View() == ChangeMemberOf(old(View()), account, mayExport, invalidate)
      ensures epoch == (if account in old(members) then old(members)[account].epoch + 1 else 1)
      ensures members == old(members)[account := Membership(epoch, mayExport)]
      ensures stored == old(stored) && files == old(files)
      ensures !invalidate ==> exports == old(exports) && grants == old(grants)
      ensures exports.Keys == old(exports).Keys && grants.Keys == old(grants).Keys
      ensures invalidate ==> forall e | e in exports ::
                exports[e] == var was := old(exports)[e];
                              if was.requestedBy == account && was.status in {Queued, Running, Succeeded}
                                 && was.epoch != None && was.epoch != Some(epoch)
                              then was.(status := Revoked) else was
      ensures invalidate ==> forall g | g in grants ::
                grants[g] == var was := old(grants)[g];
                             if was.account == account && !was.consumed && was.epoch != None && was.epoch != Some(epoch)
                             then was.(revoked := true) else was
    {
      epoch := if account in members then members[account].epoch + 1 else 1;
      members := members[account := Membership(epoch, mayExport)];
      if invalidate {
        exports := map e | e in exports :: InvalidatedExport(exports[e], account, epoch);
        grants := map g | g in grants :: InvalidatedGrant(grants[g], account, epoch);
      }
    }

    /** The last transaction of generate. */
    method CommitObject(id: nat) returns (objectCommitted: bool)
      modifies this`exports, this`stored
      ensures View() == CommitOf(old(View()), id)
      ensures objectCommitted <==> id in old(exports) && old(exports)[id].status == Running && id !in old(stored)
      ensures exports == if objectCommitted then old(exports)[id := old(exports)[id].(status := Succeeded)]
                         else old(exports)
      ensures stored == if objectCommitted then old(stored) + {id} else old(stored)
    {
      if id !in exports || !exports[id].status.Running? || id in stored { return false; }
      stored := stored + {id};
      exports := exports[id := exports[id].(status := Succeeded)];
      return true;
    }
  }

  // ---- generation step by step ---------------------------------------------------------------

  /** What follows a clean-up. */
  datatype Then = Build | Finish

  /** Where a process is inside generate or fail for one export. */
  datatype Stage =
    | Locked(id: nat)                // before the claim
    | Clean(id: nat, after: Then)    // about to ask whether the object is referenced
    | Remove(id: nat, after: Then, early: bool)  // it was not; early if a COMMIT for it was then in flight
    | Write(id: nat)                 // building the report, putFile still ahead
    | Commit(id: nat)                // putFile done
    | Done(id: nat)

  /** Holders are the workers whose session still holds the job lock of their export. A COMMIT is in flight
      when the worker has lost the connection it was sent on, and the server has not decided yet. */
  datatype State = State(clock: nat, tables: Tables, workers: map<nat, Stage>, holders: set<nat>, inFlight: set<nat>)

  datatype Step =
    | Create(actor: Actor, id: nat)
    | Cancel(actor: Actor, id: nat)
    | CreateToken(actor: Actor, id: nat, grant: nat)
    | Download(actor: Actor, grant: nat)
    | ChangeMember(account: nat, mayExport: bool, invalidate: bool)
    | TakeLock(worker: nat, id: nat)
    | LoseLock(worker: nat)                    // the session that holds the lock ends, the work goes on
    | Claim(worker: nat)
    | QueryReferenced(worker: nat, uncertain: bool)
    | RemoveObject(worker: nat)
    | PutFile(worker: nat)
    | Throw(worker: nat)
    | CommitObject(worker: nat, heard: bool)   // the reply of COMMIT may be lost
    | SendCommit(worker: nat)                  // the connection is lost before the server decides
    | LandCommit(id: nat)
    | DropCommit(id: nat)
    | FailExport(worker: nat)
    | Leave(worker: nat)                       // finished, or the process died

  function After(id: nat, after: Then): Stage {
    if after.Build? then Write(id) else Done(id)
  }

  function Move(s: State, worker: nat, tables: Tables, stage: Stage): State {
    s.(tables := tables, workers := s.workers[worker := stage])
  }

  /** invalidateForMembership waits for the rows it is about to update. */
  predicate UpdatesInFlight(s: State, account: nat) {
    var epoch := if account in s.tables.members then s.tables.members[account].epoch + 1 else 1;
    exists e | e in s.inFlight && e in s.tables.exports ::
      InvalidatedExport(s.tables.exports[e], account, epoch) != s.tables.exports[e]
  }

  /** An undecided transaction keeps its export's row locked: whoever updates that row, or locks it, waits. */
  predicate Enabled(s: State, step: Step) {
    match step
    case Create(_, _) => true
    case Cancel(_, id) => id !in s.inFlight
    case CreateToken(_, id, _) => id !in s.inFlight
    case Download(_, grant) => grant in s.tables.grants ==> s.tables.grants[grant].id !in s.inFlight
    case ChangeMember(account, _, invalidate) => invalidate ==> !UpdatesInFlight(s, account)
    case TakeLock(w, id) => w !in s.workers && forall v | v in s.workers && v in s.holders :: s.workers[v].id != id
    case LoseLock(w) => w in s.workers && w in s.holders
    case Claim(w) => w in s.workers && s.workers[w].Locked? && s.workers[w].id !in s.inFlight
    case QueryReferenced(w, _) => w in s.workers && s.workers[w].Clean?
    case RemoveObject(w) => w in s.workers && s.workers[w].Remove?
    case PutFile(w) => w in s.workers && s.workers[w].Write?
    case Throw(w) => w in s.workers && (s.workers[w].Write? || s.workers[w].Commit?)
    case CommitObject(w, _) => w in s.workers && s.workers[w].Commit? && s.workers[w].id !in s.inFlight
    case SendCommit(w) =>
      w in s.workers && s.workers[w].Commit? && s.workers[w].id !in s.inFlight && CanCommit(s.tables, s.workers[w].id)
    case LandCommit(id) => id in s.inFlight
    case DropCommit(id) => id in s.inFlight
    case FailExport(w) =>
      w in s.workers && (s.workers[w].Locked? || s.workers[w].Done?) && s.workers[w].id !in s.inFlight
    case Leave(w) => w in s.workers
  }

  function Claimed(t: Tables, id: nat): Stage {
    if id !in t.exports || t.exports[id].status.Succeeded? then Done(id)
    else if Unfinished(t.exports[id].status) then Clean(id, Build)
    else Clean(id, Finish)
  }

  function Effect(s: State, step: Step, now: nat): State
    requires Enabled(s, step)
  {
    var t := s.tables;
    match step
    case Create(actor, id) => s.(tables := CreateOf(t, actor, id))
    case Cancel(actor, id) => s.(tables := CancelOf(t, actor, id))
    case CreateToken(actor, id, grant) => s.(tables := GrantOf(t, actor, id, grant, now))
    case Download(actor, grant) => s.(tables := DownloadOf(t, actor, grant, now))
    case ChangeMember(account, mayExport, invalidate) => s.(tables := ChangeMemberOf(t, account, mayExport, invalidate))
    case TakeLock(w, id) => Move(s, w, t, Locked(id)).(holders := s.holders + {w})
    case LoseLock(w) => s.(holders := s.holders - {w})
    case Claim(w) => Move(s, w, ClaimOf(t, s.workers[w].id), Claimed(t, s.workers[w].id))
    case QueryReferenced(w, uncertain) =>
      var stage := s.workers[w];
      Move(s, w, t, if uncertain || stage.id in t.stored then After(stage.id, stage.after)
                    else Remove(stage.id, stage.after, stage.id in s.inFlight))
    case RemoveObject(w) =>
      var stage := s.workers[w];
      Move(s, w, t.(files := t.files - {stage.id}), After(stage.id, stage.after))
    case PutFile(w) => Move(s, w, t.(files := t.files + {s.workers[w].id}), Commit(s.workers[w].id))
    case Throw(w) => Move(s, w, t, Clean(s.workers[w].id, Finish))
    case CommitObject(w, heard) =>
      var id := s.workers[w].id;
      Move(s, w, CommitOf(t, id), if CanCommit(t, id) && heard then Done(id) else Clean(id, Finish))
    case SendCommit(w) =>
      var id := s.workers[w].id;
      Move(s, w, t, Clean(id, Finish)).(inFlight := s.inFlight + {id})
    case LandCommit(id) => s.(tables := CommitOf(t, id), inFlight := s.inFlight - {id})
    case DropCommit(id) => s.(inFlight := s.inFlight - {id})
    case FailExport(w) => Move(s, w, FailOf(t, s.workers[w].id), Clean(s.workers[w].id, Finish))
    case Leave(w) => s.(workers := s.workers - {w}, holders := s.holders - {w})
  }

  predicate Next(s: State, step: Step, s': State) {
    Enabled(s, step) && s'.clock > s.clock && s' == Effect(s, step, s'.clock).(clock := s'.clock)
  }

  predicate Init(s: State) {
    s.tables == Tables(map[], map[], map[], {}, {}) && s.workers == map[]
    && s.holders == {} && s.inFlight == {}
  }

  predicate Execution(states: seq<State>, steps: seq<Step>) {
    |states| == |steps| + 1 && Init(states[0])
    && forall i | 0 <= i < |steps| :: Next(states[i], steps[i], states[i + 1])
  }

  /** Nobody enters generate or fail for an export that another process is in. */
  predicate Exclusive(s: State, step: Step, id: nat) {
    step.TakeLock? && step.id == id ==> forall v | v in s.workers :: s.workers[v].id != id
  }

  predicate Locking(states: seq<State>, steps: seq<Step>, id: nat) {
    |states| == |steps| + 1 && forall i | 0 <= i < |steps| :: Exclusive(states[i], steps[i], id)
  }

  // ---- statuses ------------------------------------------------------------------------------

  /** The only changes of status there are. */
  predicate StatusStep(a: Status, b: Status) {
    a == b || (Unfinished(a) && !b.Queued?) || (a.Succeeded? && b.Revoked?)
  }

  predicate ExportsStep(t: Tables, u: Tables) {
    forall e | e in t.exports :: e in u.exports && StatusStep(t.exports[e].status, u.exports[e].status)
      && u.exports[e] == t.exports[e].(status := u.exports[e].status)
  }

  lemma TablesChange(s: State, step: Step, s': State)
    requires Next(s, step, s')
    ensures ExportsStep(s.tables, s'.tables)
  {
  }

  lemma {:induction false} StatusesMoveForward(states: seq<State>, steps: seq<Step>, i: nat, j: nat, id: nat)
    requires Execution(states, steps) && i <= j < |states| && id in states[i].tables.exports
    ensures id in states[j].tables.exports
    ensures states[j].tables.exports[id] == states[i].tables.exports[id].(status := states[j].tables.exports[id].status)
    ensures var a, b := states[i].tables.exports[id].status, states[j].tables.exports[id].status;
            (a.Failed? || a.Cancelled? || a.Revoked? ==> b == a)
            && (a.Succeeded? ==> b.Succeeded? || b.Revoked?) && (b.Queued? ==> a.Queued?)
    decreases j
  {
    hide Next, Init;
    if i < j {
      StatusesMoveForward(states, steps, i, j - 1, id);
      TablesChange(states[j - 1], steps[j - 1], states[j]);
    }
  }

  // ---- the lock ------------------------------------------------------------------------------

  predicate AllHold(s: State, id: nat) {
    forall w | w in s.workers && s.workers[w].id == id :: w in s.holders
  }

  predicate LosesLock(s: State, step: Step, id: nat) {
    step.LoseLock? && step.worker in s.workers && s.workers[step.worker].id == id
  }

  lemma StepKeepsHolding(s: State, step: Step, s': State, id: nat)
    requires AllHold(s, id) && Next(s, step, s') && !LosesLock(s, step, id)
    ensures AllHold(s', id) && Exclusive(s, step, id)
  {
    hide CreateOf, CancelOf, GrantOf, DownloadOf, ChangeMemberOf, ClaimOf, FailOf, CommitOf, UpdatesInFlight;
  }

  lemma {:induction false} HoldingLasts(states: seq<State>, steps: seq<Step>, id: nat, i: nat)
    requires Execution(states, steps) && i < |states|
    requires forall n | 0 <= n < |steps| :: !LosesLock(states[n], steps[n], id)
    ensures AllHold(states[i], id)
  {
    hide Next, LosesLock;
    if i > 0 {
      HoldingLasts(states, steps, id, i - 1);
      StepKeepsHolding(states[i - 1], steps[i - 1], states[i], id);
    }
  }

  /** As long as no session is lost that holds the lock of an export, nobody else is inside that export. */
  lemma LocksExclude(states: seq<State>, steps: seq<Step>, id: nat)
    requires Execution(states, steps) && forall n | 0 <= n < |steps| :: !LosesLock(states[n], steps[n], id)
    ensures Locking(states, steps, id)
  {
    hide Next, LosesLock, Exclusive;
    forall i | 0 <= i < |steps| ensures Exclusive(states[i], steps[i], id) {
      HoldingLasts(states, steps, id, i);
      StepKeepsHolding(states[i], steps[i], states[i + 1], id);
    }
  }

  // ---- a COMMIT in flight --------------------------------------------------------------------

  /** The undecided transactions hold the rows they have updated: those exports are still RUNNING to everybody
      else. */
  predicate HeldInFlight(s: State) {
    forall id | id in s.inFlight ::
      id in s.tables.exports && s.tables.exports[id].status == Running && id !in s.tables.stored
  }

  lemma InvalidationWaits(s: State, account: nat, mayExport: bool, id: nat)
    requires !UpdatesInFlight(s, account) && id in s.inFlight && id in s.tables.exports
    ensures ChangeMemberOf(s.tables, account, mayExport, true).exports[id] == s.tables.exports[id]
  {
  }

  lemma StepKeepsHeld(s: State, step: Step, s': State)
    requires HeldInFlight(s) && Next(s, step, s')
    ensures HeldInFlight(s')
  {
    if step.ChangeMember? && step.invalidate {
      forall id | id in s.inFlight ensures s'.tables.exports[id] == s.tables.exports[id] {
        InvalidationWaits(s, step.account, step.mayExport, id);
      }
    } else {
      hide UpdatesInFlight, InvalidateOf;
    }
  }

  lemma {:induction false} HeldAlways(states: seq<State>, steps: seq<Step>, i: nat)
    requires Execution(states, steps) && i < |states|
    ensures HeldInFlight(states[i])
  {
    hide Next, HeldInFlight;
    if i == 0 {
      NothingInFlight(states[0]);
    } else {
      HeldAlways(states, steps, i - 1);
      StepKeepsHeld(states[i - 1], steps[i - 1], states[i]);
    }
  }

  lemma NothingInFlight(s: State)
    requires Init(s)
    ensures HeldInFlight(s)
  {
  }

  /** Over every run a COMMIT that lands takes effect, whatever cancellations, failures and membership changes
      were attempted while it was in flight: the export was RUNNING all the time, and is SUCCEEDED with its row
      then. One that does not land leaves everything as it was. */
  lemma LandedCommitTakesEffect(states: seq<State>, steps: seq<Step>, i: nat, id: nat)
    requires Execution(states, steps) && i < |steps| && id in states[i].inFlight
    ensures id in states[i].tables.exports && states[i].tables.exports[id].status == Running
    ensures steps[i] == LandCommit(id) ==>
              var t := states[i].tables;
              && states[i + 1].tables == t.(exports := t.exports[id := t.exports[id].(status := Succeeded)],
                                            stored := t.stored + {id})
              && states[i + 1].inFlight == states[i].inFlight - {id}
    ensures steps[i] == DropCommit(id) ==>
              states[i + 1].tables == states[i].tables && states[i + 1].inFlight == states[i].inFlight - {id}
  {
    hide Init;
    HeldAlways(states, steps, i);
    assert Next(states[i], steps[i], states[i + 1]);
  }

  // ---- objects -------------------------------------------------------------------------------

  /** The row of the export's object is there, or may still come to be. */
  predicate Underway(s: State, id: nat) {
    id in s.inFlight || id in s.tables.stored
  }

  /** On the way to a commit. */
  predicate Making(stage: Stage) {
    stage.Write? || stage.Commit? || ((stage.Clean? || stage.Remove?) && stage.after.Build?)
  }

  /** One process is in the export. */
  predicate Alone(s: State, id: nat) {
    forall w, v | w in s.workers && v in s.workers && s.workers[w].id == id && s.workers[v].id == id :: w == v
  }

  /** Before its commit there is neither row nor undecided commit, its file is there when it comes to the
      commit, and a clean-up removes only what no row refers to, unless it asked early. */
  predicate StageFits(s: State, id: nat, stage: Stage) {
    && (Making(stage) ==> !Underway(s, id)) && (stage.Commit? ==> id in s.tables.files)
    && (stage.Remove? && !stage.early ==> !Underway(s, id))
  }

  predicate OneInside(s: State, id: nat) {
    Alone(s, id) && forall w | w in s.workers && s.workers[w].id == id :: StageFits(s, id, s.workers[w])
  }

  predicate RowsMatch(t: Tables) {
    && (forall e | e in t.exports && t.exports[e].status.Succeeded? :: e in t.stored)
    && (forall e | e in t.stored :: e in t.exports && (t.exports[e].status.Succeeded? || t.exports[e].status.Revoked?))
  }

  lemma StepKeepsRowsMatch(s: State, step: Step, s': State)
    requires RowsMatch(s.tables) && Next(s, step, s')
    ensures RowsMatch(s'.tables)
  {
    hide UpdatesInFlight;
  }

  lemma OnlyCommitsStore(s: State, step: Step, s': State)
    requires Next(s, step, s')
    ensures s'.tables.stored == (if step.CommitObject? then CommitOf(s.tables, s.workers[step.worker].id).stored
                                 else if step.LandCommit? then CommitOf(s.tables, step.id).stored
                                 else s.tables.stored)
    ensures s'.tables.files == (if step.PutFile? then s.tables.files + {s.workers[step.worker].id}
                                else if step.RemoveObject? then s.tables.files - {s.workers[step.worker].id}
                                else s.tables.files)
    ensures s'.inFlight == (if step.SendCommit? then s.inFlight + {s.workers[step.worker].id}
                            else if step.LandCommit? || step.DropCommit? then s.inFlight - {step.id}
                            else s.inFlight)
  {
    hide UpdatesInFlight;
  }

  lemma StepKeepsAlone(s: State, step: Step, s': State, id: nat)
    requires Alone(s, id) && Next(s, step, s') && Exclusive(s, step, id)
    ensures Alone(s', id)
  {
    hide CreateOf, CancelOf, GrantOf, DownloadOf, ChangeMemberOf, ClaimOf, FailOf, CommitOf, UpdatesInFlight;
  }

  lemma StepKeepsOneInside(s: State, step: Step, s': State, id: nat)
    requires OneInside(s, id) && RowsMatch(s.tables) && Next(s, step, s') && Exclusive(s, step, id)
    ensures OneInside(s', id)
  {
    hide CreateOf, CancelOf, GrantOf, DownloadOf, ChangeMemberOf, ClaimOf, FailOf, Next, UpdatesInFlight;
    StepKeepsAlone(s, step, s', id);
    OnlyCommitsStore(s, step, s');
    assert s' == Effect(s, step, s'.clock).(clock := s'.clock) && Enabled(s, step) by { UnfoldNext(s, step, s'); }
    hide Exclusive;
  }

  lemma UnfoldNext(s: State, step: Step, s': State)
    requires Next(s, step, s')
    ensures Enabled(s, step) && s' == Effect(s, step, s'.clock).(clock := s'.clock)
  {
  }

  lemma {:induction false} ReachableObjects(states: seq<State>, steps: seq<Step>, id: nat, i: nat)
    requires Execution(states, steps) && Locking(states, steps, id) && i < |states|
    ensures RowsMatch(states[i].tables) && OneInside(states[i], id)
  {
    hide Next, Exclusive;
    ReachableRows(states, steps, i);
    if i > 0 {
      ReachableObjects(states, steps, id, i - 1);
      StepKeepsOneInside(states[i - 1], steps[i - 1], states[i], id);
    }
  }

  /** A clean-up that asked while the export's COMMIT was in flight removes the object. */
  predicate RemovesEarly(s: State, step: Step, id: nat) {
    step.RemoveObject? && step.worker in s.workers
    && s.workers[step.worker].id == id && s.workers[step.worker].Remove? && s.workers[step.worker].early
  }

  /** It does so at step j, and the COMMIT it did not see has landed, or still may, by state n. */
  predicate LosesAt(states: seq<State>, steps: seq<Step>, id: nat, j: nat, n: nat) {
    j < n < |states| && j < |steps| && RemovesEarly(states[j], steps[j], id)
    && forall m | j <= m <= n :: Underway(states[m], id)
  }

  /** While a commit is under way the object is there when it comes to the commit, and goes only by an early
      clean-up. */
  lemma UnderwayStep(s: State, step: Step, s': State, id: nat)
    requires OneInside(s, id) && Next(s, step, s') && Underway(s', id)
    ensures Underway(s, id) ==> (id in s'.tables.files <==> id in s.tables.files && !RemovesEarly(s, step, id))
    ensures !Underway(s, id) ==> id in s'.tables.files
  {
    hide CreateOf, CancelOf, GrantOf, DownloadOf, ChangeMemberOf, ClaimOf, FailOf, Next, UpdatesInFlight;
    OnlyCommitsStore(s, step, s');
    assert Enabled(s, step) by { UnfoldNext(s, step, s'); }
    hide Effect;
  }

  lemma {:induction false} LostExactly(states: seq<State>, steps: seq<Step>, id: nat, n: nat)
    requires Execution(states, steps) && Locking(states, steps, id) && n < |states| && Underway(states[n], id)
    ensures id !in states[n].tables.files <==> exists j: nat :: LosesAt(states, steps, id, j, n)
  {
    hide Next, Exclusive, Locking, OneInside, Underway, RemovesEarly;
    if n == 0 {
      NothingUnderway(states[0], id);
    } else {
      ReachableObjects(states, steps, id, n - 1);
      UnderwayStep(states[n - 1], steps[n - 1], states[n], id);
      if Underway(states[n - 1], id) {
        LostExactly(states, steps, id, n - 1);
        forall j: nat ensures LosesAt(states, steps, id, j, n) <==>
                              LosesAt(states, steps, id, j, n - 1)
                              || (j == n - 1 && RemovesEarly(states[j], steps[j], id)) { }
      } else {
        forall j: nat ensures !LosesAt(states, steps, id, j, n) { }
      }
    }
  }

  lemma NothingUnderway(s: State, id: nat)
    requires Init(s)
    ensures !Underway(s, id)
  {
  }

  /** Every SUCCEEDED export that one process at a time was in has its row; and it has its object, although
      replies of COMMIT are lost, retries clean up and failures are reported, if and only if no clean-up
      removed it that had asked for the row while the COMMIT was still in flight. */
  lemma SucceededKeepsItsObject(states: seq<State>, steps: seq<Step>, n: nat, id: nat)
    requires Execution(states, steps) && Locking(states, steps, id) && n < |states|
    requires id in states[n].tables.exports && states[n].tables.exports[id].status.Succeeded?
    ensures id in states[n].tables.stored
    ensures id in states[n].tables.files <==> !exists j: nat :: LosesAt(states, steps, id, j, n)
  {
    hide Next, Exclusive, Init, LosesAt;
    ReachableObjects(states, steps, id, n);
    LostExactly(states, steps, id, n);
  }

  predicate Removes(s: State, step: Step, id: nat) {
    step.RemoveObject? && step.worker in s.workers && s.workers[step.worker].id == id
  }

  predicate Puts(s: State, step: Step, id: nat) {
    step.PutFile? && step.worker in s.workers && s.workers[step.worker].id == id
  }

  /** Step j removed the object, and nobody has written it again by state n. */
  predicate GoneSince(states: seq<State>, steps: seq<Step>, id: nat, j: nat, n: nat) {
    j < n < |states| && n <= |steps| && Removes(states[j], steps[j], id)
    && forall m | j < m < n :: !Puts(states[m], steps[m], id)
  }

  /** The object has been written at least once. */
  predicate Written(s: State, id: nat) {
    Underway(s, id) || exists w | w in s.workers :: s.workers[w] == Commit(id)
  }

  lemma WrittenStep(s: State, step: Step, s': State, id: nat)
    requires Next(s, step, s')
    ensures Written(s', id) ==> Written(s, id) || Puts(s, step, id)
    ensures id in s'.tables.files <==> Puts(s, step, id) || (id in s.tables.files && !Removes(s, step, id))
  {
    hide CreateOf, CancelOf, GrantOf, DownloadOf, ChangeMemberOf, ClaimOf, FailOf, Next, UpdatesInFlight;
    OnlyCommitsStore(s, step, s');
    assert s' == Effect(s, step, s'.clock).(clock := s'.clock) && Enabled(s, step) by { UnfoldNext(s, step, s'); }
  }

  lemma {:induction false} GoneExactly(states: seq<State>, steps: seq<Step>, id: nat, n: nat)
    requires Execution(states, steps) && n < |states| && Written(states[n], id)
    ensures id !in states[n].tables.files <==> exists j: nat :: GoneSince(states, steps, id, j, n)
  {
    hide Next, Written, Removes, Puts;
    if n == 0 {
      NothingWritten(states[0], id);
    } else {
      WrittenStep(states[n - 1], steps[n - 1], states[n], id);
      forall j: nat ensures GoneSince(states, steps, id, j, n) <==>
                            (GoneSince(states, steps, id, j, n - 1) && !Puts(states[n - 1], steps[n - 1], id))
                            || (j == n - 1 && Removes(states[j], steps[j], id)) { }
      if Written(states[n - 1], id) {
        GoneExactly(states, steps, id, n - 1);
      }
      PutsOrRemoves(states[n - 1], steps[n - 1], id);
    }
  }

  lemma NothingWritten(s: State, id: nat)
    requires Init(s)
    ensures !Written(s, id)
  {
  }

  lemma PutsOrRemoves(s: State, step: Step, id: nat)
    ensures !(Puts(s, step, id) && Removes(s, step, id))
  {
  }

  /** With any number of processes in the export, as when sessions that hold its lock are lost: a SUCCEEDED
      export is without its object if and only if some clean-up removed it and nobody wrote it again. */
  lemma LostInGeneral(states: seq<State>, steps: seq<Step>, n: nat, id: nat)
    requires Execution(states, steps) && n < |states|
    requires id in states[n].tables.exports && states[n].tables.exports[id].status.Succeeded?
    ensures id in states[n].tables.stored
    ensures id !in states[n].tables.files <==> exists j: nat :: GoneSince(states, steps, id, j, n)
  {
    hide Next, Init, GoneSince;
    ReachableRows(states, steps, n);
    GoneExactly(states, steps, id, n);
  }

  lemma {:induction false} ReachableRows(states: seq<State>, steps: seq<Step>, i: nat)
    requires Execution(states, steps) && i < |states|
    ensures RowsMatch(states[i].tables)
  {
    hide Next;
    if i > 0 {
      ReachableRows(states, steps, i - 1);
      StepKeepsRowsMatch(states[i - 1], steps[i - 1], states[i]);
    }
  }

  /** The lock is needed: a clean-up that asked before another process committed deletes the object of a
      SUCCEEDED export. */
  lemma UnlockedCleanUpLosesTheObject(s: State, id: nat, after: Then, cleaner: nat, committer: nat)
    returns (s1: State, s2: State)
    requires cleaner in s.workers && s.workers[cleaner] == Remove(id, after, false) && id !in s.inFlight
    requires committer in s.workers && s.workers[committer] == Commit(id) && CanCommit(s.tables, id)
    ensures Next(s, CommitObject(committer, true), s1) && Next(s1, RemoveObject(cleaner), s2)
    ensures s2.tables.exports[id].status.Succeeded? && id in s2.tables.stored && id !in s2.tables.files
  {
    s1 := Effect(s, CommitObject(committer, true), s.clock + 1).(clock := s.clock + 1);
    s2 := Effect(s1, RemoveObject(cleaner), s1.clock + 1).(clock := s1.clock + 1);
  }

  // ---- grants and epochs ---------------------------------------------------------------------

  predicate GrantsStep(t: Tables, u: Tables) {
    forall g | g in t.grants :: g in u.grants
      && u.grants[g] == t.grants[g].(consumed := u.grants[g].consumed, revoked := u.grants[g].revoked)
      && (t.grants[g].consumed ==> u.grants[g].consumed) && (t.grants[g].revoked ==> u.grants[g].revoked)
  }

  predicate EpochsStep(t: Tables, u: Tables) {
    forall a | a in t.members :: a in u.members && t.members[a].epoch <= u.members[a].epoch
  }

  lemma GrantsChange(s: State, step: Step, s': State)
    requires Next(s, step, s')
    ensures GrantsStep(s.tables, s'.tables) && EpochsStep(s.tables, s'.tables)
    ensures step.ChangeMember? && step.account in s.tables.members ==>
              s'.tables.members[step.account].epoch > s.tables.members[step.account].epoch
  {
  }

  lemma {:induction false} GrantsPersist(states: seq<State>, steps: seq<Step>, i: nat, j: nat)
    requires Execution(states, steps) && i <= j < |states|
    ensures GrantsStep(states[i].tables, states[j].tables) && EpochsStep(states[i].tables, states[j].tables)
    ensures states[i].clock <= states[j].clock
    decreases j
  {
    if i < j {
      hide Enabled, Effect;
      assert Next(states[j - 1], steps[j - 1], states[j]);
      hide Next;
      GrantsPersist(states, steps, i, j - 1);
      GrantsChange(states[j - 1], steps[j - 1], states[j]);
    }
  }

  predicate Downloads(states: seq<State>, steps: seq<Step>, i: nat, grant: nat) {
    i < |steps| < |states| && steps[i].Download? && steps[i].grant == grant
    && CanDownload(states[i].tables, steps[i].actor, grant, states[i + 1].clock)
  }

  /** Each grant authorises at most one download, whoever presents it. */
  lemma GrantConsumedOnce(states: seq<State>, steps: seq<Step>, i: nat, k: nat, grant: nat)
    requires Execution(states, steps) && i < k
    requires Downloads(states, steps, i, grant)
    ensures !Downloads(states, steps, k, grant)
  {
    if Downloads(states, steps, k, grant) {
      assert states[i + 1].tables.grants[grant].consumed by { UnfoldNext(states[i], steps[i], states[i + 1]); }
      GrantsPersist(states, steps, i + 1, k);
    }
  }

  /** A download by a customer happens at the epoch at which both the export and the grant were made, by the
      account that asked for them, and before the grant expires. */
  lemma CustomerDownloadsAtCurrentEpoch(states: seq<State>, steps: seq<Step>, i: nat, grant: nat)
    requires Downloads(states, steps, i, grant) && steps[i].actor.Customer?
    ensures var t, account := states[i].tables, steps[i].actor.account;
            var g := t.grants[grant];
            && account in t.members && t.members[account].mayExport
            && g.epoch == Some(t.members[account].epoch) && t.exports[g.id].epoch == g.epoch
            && g.account == account && t.exports[g.id].requestedBy == account
            && states[i + 1].clock < g.expiresAt
  {
  }

  predicate NotAhead(t: Tables, epoch: Option<nat>, account: nat) {
    epoch.Some? ==> account in t.members && epoch.value <= t.members[account].epoch
  }

  predicate ExportsBounded(t: Tables) {
    forall e | e in t.exports :: NotAhead(t, t.exports[e].epoch, t.exports[e].requestedBy)
  }

  predicate EpochsBounded(t: Tables) {
    ExportsBounded(t) && forall g | g in t.grants :: NotAhead(t, t.grants[g].epoch, t.grants[g].account)
  }

  lemma StepKeepsExportsBounded(s: State, step: Step, s': State)
    requires ExportsBounded(s.tables) && Next(s, step, s')
    ensures ExportsBounded(s'.tables)
  {
    hide UpdatesInFlight, CanGrant, CanDownload;
  }

  lemma StepKeepsBounds(s: State, step: Step, s': State)
    requires EpochsBounded(s.tables) && Next(s, step, s')
    ensures EpochsBounded(s'.tables)
  {
    StepKeepsExportsBounded(s, step, s');
    hide UpdatesInFlight, ExportsBounded, CanCommit;
  }

  lemma {:induction false} ReachableBounds(states: seq<State>, steps: seq<Step>, i: nat)
    requires Execution(states, steps) && i < |states|
    ensures EpochsBounded(states[i].tables)
  {
    hide Next, EpochsBounded;
    if i > 0 {
      ReachableBounds(states, steps, i - 1);
      StepKeepsBounds(states[i - 1], steps[i - 1], states[i]);
    } else {
      assert EpochsBounded(states[0].tables) by { EmptyIsBounded(states[0].tables); }
    }
  }

  lemma EmptyIsBounded(t: Tables)
    requires t.exports == map[] && t.grants == map[]
    ensures EpochsBounded(t)
  {
  }

  /** Once the membership epoch has moved on, that customer downloads nothing that was requested or granted
      before, with or without an invalidation. */
  lemma EpochChangeEndsOldDownloads(states: seq<State>, steps: seq<Step>, i: nat, k: nat, grant: nat)
    requires Execution(states, steps) && i < k && Downloads(states, steps, k, grant)
    requires steps[i].ChangeMember? && steps[k].actor == Customer(steps[i].account)
    requires steps[i].account in states[i].tables.members
    ensures grant !in states[i].tables.grants
    ensures states[k].tables.grants[grant].id !in states[i].tables.exports
  {
    hide Init, Next, ExportsStep;
    ReachableBounds(states, steps, i);
    assert Next(states[i], steps[i], states[i + 1]);
    GrantsChange(states[i], steps[i], states[i + 1]);
    GrantsPersist(states, steps, i, k);
    GrantsPersist(states, steps, i + 1, k);
    var id := states[k].tables.grants[grant].id;
    if id in states[i].tables.exports {
      StatusesMoveForward(states, steps, i, k, id);
    }
  }

  /** An invalidating change revokes exactly the live artifacts of that customer's older epochs: its exports that
      are unfinished or have succeeded, and its grants that are not yet used. */
  lemma InvalidationRevokesOldArtifacts(s: State, account: nat, mayExport: bool, s': State, id: nat, grant: nat)
    requires Next(s, ChangeMember(account, mayExport, true), s') && EpochsBounded(s.tables)
             && account in s.tables.members
    ensures id in s.tables.exports ==>
              var e, f := s.tables.exports[id], s'.tables.exports[id];
              f == if e.requestedBy == account && e.epoch.Some? && e.status !in {Failed, Cancelled, Revoked}
                   then e.(status := Revoked) else e
    ensures grant in s.tables.grants ==>
              var g, h := s.tables.grants[grant], s'.tables.grants[grant];
              h == if g.account == account && g.epoch.Some? && !g.consumed then g.(revoked := true) else g
    ensures s'.tables.members == s.tables.members[account := Membership(s.tables.members[account].epoch + 1, mayExport)]
  {
    assert id in s.tables.exports && s.tables.exports[id].requestedBy == account ==>
             NotAhead(s.tables, s.tables.exports[id].epoch, account);
    assert grant in s.tables.grants && s.tables.grants[grant].account == account ==>
             NotAhead(s.tables, s.tables.grants[grant].epoch, account);
  }

  // ---- what takes effect, and for how long ---------------------------------------------------

  /** Cancelling an unfinished export by someone who may is effective at once and for good. */
  lemma CancelledForGood(states: seq<State>, steps: seq<Step>, i: nat, k: nat, actor: Actor, id: nat)
    requires Execution(states, steps) && i < k < |states| && steps[i] == Cancel(actor, id)
    requires Allowed(states[i].tables, actor, id) && states[i].tables.exports[id].status in {Queued, Running}
    ensures id in states[k].tables.exports && states[k].tables.exports[id].status == Cancelled
  {
    hide Init;
    AllowedExactly(states[i].tables, actor, id);
    assert Next(states[i], steps[i], states[i + 1]);
    hide Next;
    StatusesMoveForward(states, steps, i + 1, k, id);
  }

  /** So is reporting a failure for it. */
  lemma FailedForGood(states: seq<State>, steps: seq<Step>, i: nat, k: nat, worker: nat, id: nat)
    requires Execution(states, steps) && i < k < |states| && steps[i] == FailExport(worker)
    requires worker in states[i].workers && states[i].workers[worker].id == id
    requires id in states[i].tables.exports && states[i].tables.exports[id].status in {Queued, Running}
    ensures id in states[k].tables.exports && states[k].tables.exports[id].status == Failed
  {
    hide Init;
    assert Next(states[i], steps[i], states[i + 1]);
    hide Next;
    StatusesMoveForward(states, steps, i + 1, k, id);
  }

  /** What a grant needs to stay good. */
  predicate StaysGood(t: Tables, actor: Actor, id: nat, grant: nat, expiresAt: nat, requester: nat) {
    && Allowed(t, actor, id) && t.exports[id].status == Succeeded && t.exports[id].requestedBy == requester
    && id in t.stored
    && grant in t.grants && t.grants[grant] == Grant(id, actor.account, Epoch(t, actor), expiresAt, false, false)
  }

  predicate Disturbs(step: Step, account: nat, requester: nat) {
    step.ChangeMember? && (step.account == account || step.account == requester)
  }

  lemma StepKeepsGood(s: State, step: Step, s': State, actor: Actor, id: nat, grant: nat, expiresAt: nat,
                      requester: nat)
    requires Next(s, step, s') && StaysGood(s.tables, actor, id, grant, expiresAt, requester)
    requires !Disturbs(step, actor.account, requester) && !(step.Download? && step.grant == grant)
    ensures StaysGood(s'.tables, actor, id, grant, expiresAt, requester)
  {
    hide UpdatesInFlight, CanGrant, CanDownload, HasAccess, MayTouch, CanCommit, Binding;
    assert GrantsStep(s.tables, s'.tables) && ExportsStep(s.tables, s'.tables) by {
      GrantsChange(s, step, s');
      TablesChange(s, step, s');
    }
  }

  lemma {:induction false} GrantStaysGood(states: seq<State>, steps: seq<Step>, i: nat, k: nat, actor: Actor, id: nat,
                                          grant: nat, expiresAt: nat, requester: nat)
    requires Execution(states, steps) && i <= k < |states|
    requires StaysGood(states[i].tables, actor, id, grant, expiresAt, requester)
    requires forall n | i <= n < k :: !Disturbs(steps[n], actor.account, requester)
                                      && !(steps[n].Download? && steps[n].grant == grant)
    ensures StaysGood(states[k].tables, actor, id, grant, expiresAt, requester)
    decreases k
  {
    hide Next, StaysGood, Disturbs;
    if i < k {
      GrantStaysGood(states, steps, i, k - 1, actor, id, grant, expiresAt, requester);
      StepKeepsGood(states[k - 1], steps[k - 1], states[k], actor, id, grant, expiresAt, requester);
    }
  }

  /** A granted download is there for five minutes: whoever was given it downloads at the first attempt made
      before it expires, unless the membership of that person or of the requester has changed meanwhile. */
  lemma GrantedDownloadIsThere(states: seq<State>, steps: seq<Step>, i: nat, k: nat, actor: Actor, id: nat, grant: nat)
    requires Execution(states, steps) && i < k < |steps|
    requires steps[i] == CreateToken(actor, id, grant) && steps[k] == Download(actor, grant)
    requires Allowed(states[i].tables, actor, id) && states[i].tables.exports[id].status == Succeeded
    requires grant !in states[i].tables.grants && states[k + 1].clock < states[i + 1].clock + 300
    requires forall n | i < n < k :: !Disturbs(steps[n], actor.account, states[i].tables.exports[id].requestedBy)
                                     && !(steps[n].Download? && steps[n].grant == grant)
    ensures Downloads(states, steps, k, grant)
  {
    hide Init;
    var requester, expiresAt := states[i].tables.exports[id].requestedBy, states[i + 1].clock + 300;
    AllowedExactly(states[i].tables, actor, id);
    ReachableRows(states, steps, i);
    assert Next(states[i], steps[i], states[i + 1]);
    assert StaysGood(states[i + 1].tables, actor, id, grant, expiresAt, requester);
    hide Next;
    GrantStaysGood(states, steps, i + 1, k, actor, id, grant, expiresAt, requester);
    DownloadableExactly(states[k].tables, actor, grant, states[k + 1].clock);
  }

  /** Left alone, a worker that takes up an unfinished export brings it to SUCCEEDED, with row and object. */
  lemma UndisturbedGenerationSucceeds(s: State, w: nat, id: nat) returns (states: seq<State>, steps: seq<Step>)
    requires RowsMatch(s.tables) && id in s.tables.exports && s.tables.exports[id].status in {Queued, Running}
    requires id !in s.inFlight && w !in s.workers && forall v | v in s.workers :: s.workers[v].id != id
    ensures |states| == |steps| + 1 && states[0] == s
    ensures forall i | 0 <= i < |steps| :: Next(states[i], steps[i], states[i + 1])
    ensures forall i | 0 <= i < |steps| :: steps[i] in {TakeLock(w, id), Claim(w), QueryReferenced(w, false),
                                                        RemoveObject(w), PutFile(w), CommitObject(w, true)}
    ensures var u := states[|steps|].tables;
            && u == s.tables.(exports := u.exports, stored := s.tables.stored + {id}, files := s.tables.files + {id})
            && u.exports == s.tables.exports[id := s.tables.exports[id].(status := Succeeded)]
  {
    var s1 := Effect(s, TakeLock(w, id), s.clock + 1).(clock := s.clock + 1);
    var s2, s3 := ClaimsAndAsks(s1, w, id);
    var s4, s5, s6 := BuildsAndCommits(s3, w, id);
    states := [s, s1, s2, s3, s4, s5, s6];
    steps := [TakeLock(w, id), Claim(w), QueryReferenced(w, false), RemoveObject(w), PutFile(w), CommitObject(w, true)];
    hide Next;
    assert Next(s, TakeLock(w, id), s1) by { LockIsTaken(s, w, id); }
  }

  lemma LockIsTaken(s: State, w: nat, id: nat)
    requires w !in s.workers && forall v | v in s.workers :: s.workers[v].id != id
    ensures Next(s, TakeLock(w, id), Effect(s, TakeLock(w, id), s.clock + 1).(clock := s.clock + 1))
  {
  }

  lemma ClaimsAndAsks(s: State, w: nat, id: nat) returns (s1: State, s2: State)
    requires w in s.workers && s.workers[w] == Locked(id) && id !in s.inFlight && RowsMatch(s.tables)
    requires id in s.tables.exports && Unfinished(s.tables.exports[id].status)
    ensures Next(s, Claim(w), s1) && Next(s1, QueryReferenced(w, false), s2)
    ensures s2.workers == s.workers[w := Remove(id, Build, false)] && s2.inFlight == s.inFlight
    ensures s2.tables == SetStatus(s.tables, id, Running) && id !in s.tables.stored
  {
    s1 := Effect(s, Claim(w), s.clock + 1).(clock := s.clock + 1);
    s2 := Effect(s1, QueryReferenced(w, false), s1.clock + 1).(clock := s1.clock + 1);
  }

  lemma BuildsAndCommits(s: State, w: nat, id: nat) returns (s1: State, s2: State, s3: State)
    requires w in s.workers && s.workers[w] == Remove(id, Build, false) && id !in s.inFlight
    requires id in s.tables.exports && s.tables.exports[id].status.Running? && id !in s.tables.stored
    ensures Next(s, RemoveObject(w), s1) && Next(s1, PutFile(w), s2) && Next(s2, CommitObject(w, true), s3)
    ensures s3.tables == SetStatus(s.tables, id, Succeeded).(stored := s.tables.stored + {id},
                                                             files := s.tables.files + {id})
  {
    s1 := Effect(s, RemoveObject(w), s.clock + 1).(clock := s.clock + 1);
    s2 := Effect(s1, PutFile(w), s1.clock + 1).(clock := s1.clock + 1);
    s3 := Effect(s2, CommitObject(w, true), s2.clock + 1).(clock := s2.clock + 1);
  }

  // ---- where a download comes from -----------------------------------------------------------

  /** Step i issued the grant, as it still stands in t. */
  predicate Issued(states: seq<State>, steps: seq<Step>, i: nat, grant: nat, t: Tables) {
    && i < |steps| < |states| && steps[i].CreateToken? && steps[i].grant == grant && grant in t.grants
    && CanGrant(states[i].tables, steps[i].actor, steps[i].id)
    && t.grants[grant] == Grant(steps[i].id, steps[i].actor.account, Binding(states[i].tables, steps[i].actor),
                                states[i + 1].clock + GRANT_SECONDS, t.grants[grant].consumed, t.grants[grant].revoked)
  }

  /** Step i requested the export, as it still stands in t up to its status. */
  predicate Requested(states: seq<State>, steps: seq<Step>, i: nat, id: nat, t: Tables) {
    && i < |steps| < |states| && steps[i].Create? && steps[i].id == id && id in t.exports
    && HasAccess(states[i].tables, steps[i].actor)
    && t.exports[id] == Export(t.exports[id].status, steps[i].actor.account, Binding(states[i].tables, steps[i].actor))
  }

  lemma NewGrantIsIssued(s: State, step: Step, s': State, grant: nat)
    requires Next(s, step, s') && grant !in s.tables.grants && grant in s'.tables.grants
    ensures step.CreateToken? && step.grant == grant && CanGrant(s.tables, step.actor, step.id)
    ensures s'.tables.grants[grant] == Grant(step.id, step.actor.account, Binding(s.tables, step.actor),
                                            s'.clock + GRANT_SECONDS, false, false)
  {
  }

  lemma NewExportIsRequested(s: State, step: Step, s': State, id: nat)
    requires Next(s, step, s') && id !in s.tables.exports && id in s'.tables.exports
    ensures step.Create? && step.id == id && HasAccess(s.tables, step.actor)
    ensures s'.tables.exports[id] == Export(Queued, step.actor.account, Binding(s.tables, step.actor))
  {
  }

  lemma {:induction false} EveryGrantWasIssued(states: seq<State>, steps: seq<Step>, k: nat, grant: nat)
    returns (i: nat)
    requires Execution(states, steps) && k < |states| && grant in states[k].tables.grants
    ensures i < k && Issued(states, steps, i, grant, states[k].tables)
  {
    hide Next, CanGrant, Binding;
    if grant in states[k - 1].tables.grants {
      i := EveryGrantWasIssued(states, steps, k - 1, grant);
      GrantsPersist(states, steps, k - 1, k);
    } else {
      i := k - 1;
      NewGrantIsIssued(states[i], steps[i], states[k], grant);
    }
  }

  lemma {:induction false} EveryExportWasRequested(states: seq<State>, steps: seq<Step>, k: nat, id: nat)
    returns (i: nat)
    requires Execution(states, steps) && k < |states| && id in states[k].tables.exports
    ensures i < k && Requested(states, steps, i, id, states[k].tables)
  {
    hide Next, HasAccess, Binding;
    if id in states[k - 1].tables.exports {
      i := EveryExportWasRequested(states, steps, k - 1, id);
      StatusesMoveForward(states, steps, k - 1, k, id);
    } else {
      i := k - 1;
      NewExportIsRequested(states[i], steps[i], states[k], id);
    }
  }

  lemma EpochStandsStill(states: seq<State>, steps: seq<Step>, j: nat, n: nat, k: nat, account: nat)
    requires Execution(states, steps) && j <= n < k < |states|
    requires account in states[j].tables.members && account in states[k].tables.members
    requires states[j].tables.members[account].epoch == states[k].tables.members[account].epoch
    ensures !(steps[n].ChangeMember? && steps[n].account == account)
  {
    hide Init, Enabled, Effect;
    GrantsPersist(states, steps, j, n);
    GrantsPersist(states, steps, n + 1, k);
    assert Next(states[n], steps[n], states[n + 1]);
    hide Next;
    GrantsChange(states[n], steps[n], states[n + 1]);
  }

  /** Every download by a customer goes back to the same customer: it requested that export, was then granted
      that download less than five minutes ago, and its membership has not changed since the request. */
  lemma CustomerDownloadWasAskedFor(states: seq<State>, steps: seq<Step>, k: nat, grant: nat, account: nat)
    returns (j: nat, i: nat)
    requires Execution(states, steps) && Downloads(states, steps, k, grant) && steps[k].actor == Customer(account)
    ensures j < i < k
    ensures steps[j] == Create(Customer(account), states[k].tables.grants[grant].id)
    ensures steps[i] == CreateToken(Customer(account), states[k].tables.grants[grant].id, grant)
    ensures states[k + 1].clock < states[i + 1].clock + GRANT_SECONDS
    ensures forall n | j <= n < k :: !(steps[n].ChangeMember? && steps[n].account == account)
  {
    hide Init, Next;
    var id := states[k].tables.grants[grant].id;
    CustomerDownloadsAtCurrentEpoch(states, steps, k, grant);
    i := EveryGrantWasIssued(states, steps, k, grant);
    j := EveryExportWasRequested(states, steps, i, id);
    StatusesMoveForward(states, steps, i, k, id);
    forall n | j <= n < k ensures !(steps[n].ChangeMember? && steps[n].account == account) {
      EpochStandsStill(states, steps, j, n, k, account);
    }
  }

  // ---- histories that lose the object --------------------------------------------------------

  ghost predicate Reachable(s: State) {
    exists states: seq<State>, steps: seq<Step> :: Execution(states, steps) && states[|steps|] == s
  }

  lemma StartIsReachable(s: State)
    requires Init(s)
    ensures Reachable(s)
  {
    assert Execution([s], []);
  }

  lemma StepIsReachable(s: State, step: Step) returns (s': State)
    requires Reachable(s) && Enabled(s, step)
    ensures s' == Effect(s, step, s.clock + 1).(clock := s.clock + 1) && Next(s, step, s') && Reachable(s')
  {
    hide Init, Effect, Enabled;
    s' := Effect(s, step, s.clock + 1).(clock := s.clock + 1);
    var states: seq<State>, steps: seq<Step> :| Execution(states, steps) && states[|steps|] == s;
    var longer, more := states + [s'], steps + [step];
    assert Next(s, step, s');
    forall i | 0 <= i < |more| ensures Next(longer[i], more[i], longer[i + 1]) {
      if i < |steps| {
        assert longer[i] == states[i] && longer[i + 1] == states[i + 1] && more[i] == steps[i];
      }
    }
    assert Execution(longer, more) && longer[|more|] == s';
  }

  function Building(clock: nat, files: set<nat>, workers: map<nat, Stage>, holders: set<nat>,
                    inFlight: set<nat>): State {
    State(clock, Tables(map[7 := Export(Running, 1, None)], map[], map[], {}, files), workers, holders, inFlight)
  }

  lemma OneIsLocked() returns (s: State)
    ensures Reachable(s)
    ensures s == State(2, Tables(map[7 := Export(Queued, 1, None)], map[], map[], {}, {}), map[1 := Locked(7)], {1}, {})
  {
    hide Reachable;
    var s0 := State(0, Tables(map[], map[], map[], {}, {}), map[], {}, {});
    StartIsReachable(s0);
    var s1 := StepIsReachable(s0, Create(Staff(1), 7));
    s := StepIsReachable(s1, TakeLock(1, 7));
    assert s.tables.exports == map[7 := Export(Queued, 1, None)];
  }

  lemma OneBuilds() returns (s: State)
    ensures Reachable(s) && s == Building(4, {}, map[1 := Remove(7, Build, false)], {1}, {})
  {
    hide Reachable;
    var s2 := OneIsLocked();
    var s3 := StepIsReachable(s2, Claim(1));
    assert s3 == Building(3, {}, map[1 := Clean(7, Build)], {1}, {});
    s := StepIsReachable(s3, QueryReferenced(1, false));
  }

  lemma AnotherClaims() returns (s: State)
    ensures Reachable(s) && s == Building(7, {}, map[1 := Remove(7, Build, false), 2 := Clean(7, Build)], {2}, {})
  {
    hide Reachable;
    var s4 := OneBuilds();
    var s5 := StepIsReachable(s4, LoseLock(1));
    assert s5 == Building(5, {}, map[1 := Remove(7, Build, false)], {}, {});
    var s6 := StepIsReachable(s5, TakeLock(2, 7));
    assert s6 == Building(6, {}, map[1 := Remove(7, Build, false), 2 := Locked(7)], {2}, {});
    s := StepIsReachable(s6, Claim(2));
  }

  lemma AnotherGetsAhead() returns (s: State)
    ensures Reachable(s) && s == Building(10, {7}, map[1 := Remove(7, Build, false), 2 := Commit(7)], {2}, {})
  {
    hide Reachable;
    var s7 := AnotherClaims();
    var s8 := StepIsReachable(s7, QueryReferenced(2, false));
    assert s8 == Building(8, {}, map[1 := Remove(7, Build, false), 2 := Remove(7, Build, false)], {2}, {});
    var s9 := StepIsReachable(s8, RemoveObject(2));
    assert s9 == Building(9, {}, map[1 := Remove(7, Build, false), 2 := Write(7)], {2}, {});
    s := StepIsReachable(s9, PutFile(2));
  }

  predicate Lost(s: State, id: nat) {
    id in s.tables.exports && s.tables.exports[id].status.Succeeded? && id in s.tables.stored && id !in s.tables.files
  }

  /** From the creation of an export: the session that holds the lock of a clean-up ends, another process
      takes the lock and commits, and the clean-up removes the object. */
  lemma LostLockLosesTheObject()
    ensures exists s :: Reachable(s) && Lost(s, 7)
  {
    hide Reachable;
    var s := AnotherGetsAhead();
    var s1, s2 := UnlockedCleanUpLosesTheObject(s, 7, Build, 1, 2);
    var r1 := StepIsReachable(s, CommitObject(2, true));
    var r2 := StepIsReachable(r1, RemoveObject(1));
    assert Lost(r2, 7);
  }

  lemma CommitIsSent() returns (s: State)
    ensures Reachable(s) && s == Building(7, {7}, map[1 := Clean(7, Finish)], {1}, {7})
  {
    hide Reachable;
    var s4 := OneBuilds();
    var s5 := StepIsReachable(s4, RemoveObject(1));
    assert s5 == Building(5, {}, map[1 := Write(7)], {1}, {});
    var s6 := StepIsReachable(s5, PutFile(1));
    assert s6 == Building(6, {7}, map[1 := Commit(7)], {1}, {});
    s := StepIsReachable(s6, SendCommit(1));
  }

  /** From the creation of an export, with its lock held throughout: the connection breaks during COMMIT, the
      clean-up asks before the server decides, and the COMMIT lands. */
  lemma CommitInFlightLosesTheObject()
    ensures exists s :: Reachable(s) && Lost(s, 7) && 1 in s.holders
  {
    hide Reachable;
    var s7 := CommitIsSent();
    var s8 := StepIsReachable(s7, QueryReferenced(1, false));
    assert s8 == Building(8, {7}, map[1 := Remove(7, Finish, true)], {1}, {7});
    var s9 := StepIsReachable(s8, RemoveObject(1));
    assert s9 == Building(9, {}, map[1 := Done(7)], {1}, {7});
    var s10 := StepIsReachable(s9, LandCommit(7));
    assert Lost(s10, 7) && 1 in s10.holders;
  }
}
