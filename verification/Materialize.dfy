/** Turning the staged rows of a batch into immutable dataset versions, one per (marketplace, month), and
    retiring versions whose sources were replayed without producing their slice again. */
module Materialize {
  import opened Prelude

  datatype Kind = Shipment | Transaction

  /** A (marketplace, month) of the shop. */
  datatype Slice = Slice(marketplace: string, month: int)

  /** One row of import_stage. */
  datatype Row = Row(kind: Kind, slice: Slice, file: nat, rowNumber: nat, isOrder: bool, byMerchant: bool,
                     values: seq<int>)

  datatype Status = Active | Incomplete | Superseded

  datatype Version = Version(slice: Slice, number: nat, status: Status, supersedes: Option<nat>)

  datatype Fact = Fact(version: nat, row: Row)

  datatype Tables = Tables(
    versions: map<nat, Version>,
    current: map<Slice, nat>,              // dataset_slice.current_version_id
    bindings: map<nat, set<nat>>,          // the files behind a version
    objects: map<nat, nat>,                // import_file.stored_object_id, where it is not null
    shipments: multiset<Fact>,
    transactions: multiset<Fact>
  )

  // ---- what the batch touches ----------------------------------------------------------------

  function StagedSlices(stage: seq<Row>): set<Slice> {
    set r | r in stage :: r.slice
  }

  function FilesOf(stage: seq<Row>, slice: Slice): set<nat> {
    set r | r in stage && r.slice == slice :: r.file
  }

  predicate FromReplay(t: Tables, file: nat, replay: set<nat>) {
    file in t.objects && t.objects[file] in replay
  }

  /** The slice's current version has sources, and every one of them is replayed by this batch. */
  predicate Replayed(t: Tables, slice: Slice, replay: set<nat>) {
    slice in t.current && t.current[slice] in t.bindings
    && (exists f | f in t.bindings[t.current[slice]] :: FromReplay(t, f, replay))
    && (forall f | f in t.bindings[t.current[slice]] :: FromReplay(t, f, replay))
  }

  function Retired(t: Tables, stage: seq<Row>, replay: set<nat>): set<Slice> {
    set s | s in t.current && Replayed(t, s, replay) && s !in StagedSlices(stage)
  }

  function Affected(t: Tables, stage: seq<Row>, replay: set<nat>): set<Slice> {
    StagedSlices(stage) + Retired(t, stage, replay)
  }

  predicate HasKind(stage: seq<Row>, slice: Slice, kind: Kind) {
    exists r | r in stage :: r.slice == slice && r.kind == kind
  }

  predicate HasOrder(stage: seq<Row>, slice: Slice, byMerchant: bool) {
    exists r | r in stage :: r.slice == slice && r.kind.Transaction? && r.isOrder && r.byMerchant == byMerchant
  }

  /** Shipments are there, or cannot be expected: every order was shipped by the merchant. */
  predicate Complete(stage: seq<Row>, slice: Slice) {
    HasKind(stage, slice, Shipment)
    || (HasKind(stage, slice, Transaction) && HasOrder(stage, slice, true) && !HasOrder(stage, slice, false))
  }

  /** COALESCE(max(version_no), 0). */
  ghost function LastNumber(t: Tables, slice: Slice): (n: nat)
    ensures forall v | v in t.versions && t.versions[v].slice == slice :: t.versions[v].number <= n
    ensures n == 0 || exists v :: v in t.versions && t.versions[v].slice == slice && t.versions[v].number == n
  {
    var numbers := set v | v in t.versions && t.versions[v].slice == slice :: t.versions[v].number;
    assert forall v | v in t.versions && t.versions[v].slice == slice :: t.versions[v].number in numbers;
    MaxNumber(numbers)
  }

  ghost function MaxNumber(numbers: set<nat>): (n: nat)
    ensures forall m | m in numbers :: m <= n
    ensures n == 0 || n in numbers
  {
    if numbers == {} then 0
    else
      var m :| m in numbers;
      var rest := MaxNumber(numbers - {m});
      assert forall k | k in numbers :: k == m || k in numbers - {m};
      if m > rest then m else rest
  }

  lemma SomethingStaged(stage: seq<Row>)
    ensures StagedSlices(stage) != {} <==> stage != []
  {
    if stage != [] { assert stage[0].slice in StagedSlices(stage); }
  }

  // ---- the statements ------------------------------------------------------------------------

  /** gen_random_uuid(): fresh and different for every slice. */
  predicate FreshIds(t: Tables, slices: set<Slice>, ids: map<Slice, nat>) {
    && ids.Keys == slices && (forall s | s in ids :: ids[s] !in t.versions)
    && (forall s, r | s in ids && r in ids && ids[s] == ids[r] :: s == r)
  }

  function Pointer(t: Tables, slice: Slice): Option<nat> {
    if slice in t.current then Some(t.current[slice]) else None
  }

  ghost function NewVersion(t: Tables, stage: seq<Row>, slice: Slice): Version {
    Version(slice, LastNumber(t, slice) + 1, if Complete(stage, slice) then Active else Incomplete, Pointer(t, slice))
  }

  ghost function NewVersions(t: Tables, stage: seq<Row>, ids: map<Slice, nat>): map<nat, Version>
    requires forall s, r | s in ids && r in ids && ids[s] == ids[r] :: s == r
  {
    map s | s in ids :: ids[s] := NewVersion(t, stage, s)
  }

  /** UPDATE dataset_version … SET status='SUPERSEDED'. */
  function Supersede(versions: map<nat, Version>, replaced: set<nat>): map<nat, Version> {
    map v | v in versions :: if v in replaced then versions[v].(status := Superseded) else versions[v]
  }

  function Replaced(t: Tables, ids: map<Slice, nat>): set<nat> {
    set s | s in ids && s in t.current :: t.current[s]
  }

  /** The facts one kind of staged rows becomes. */
  function FactsOf(stage: seq<Row>, kind: Kind, ids: map<Slice, nat>): multiset<Fact>
    requires forall r | r in stage :: r.slice in ids
  {
    if stage == [] then multiset{}
    else
      var rest := FactsOf(stage[1..], kind, ids);
      if stage[0].kind == kind then multiset{Fact(ids[stage[0].slice], stage[0])} + rest else rest
  }

  function NewBindings(stage: seq<Row>, ids: map<Slice, nat>): map<nat, set<nat>>
    requires forall s, r | s in ids && r in ids && ids[s] == ids[r] :: s == r
  {
    map s | s in ids :: ids[s] := FilesOf(stage, s)
  }

  /** materializeImportSlices. */
  ghost function MaterializeOf(t: Tables, stage: seq<Row>, replay: set<nat>, ids: map<Slice, nat>): Tables
    requires FreshIds(t, Affected(t, stage, replay), ids)
  {
    t.(versions := Supersede(t.versions + NewVersions(t, stage, ids), Replaced(t, ids)),
       current := t.current + ids,
       bindings := t.bindings + NewBindings(stage, ids),
       shipments := t.shipments + FactsOf(stage, Shipment, ids),
       transactions := t.transactions + FactsOf(stage, Transaction, ids))
  }

  /** The materialising part of commitImportBatch: without a usable row everything is rolled back. */
  ghost function CommitOf(t: Tables, stage: seq<Row>, replay: set<nat>, ids: map<Slice, nat>): Result<Tables, string>
    requires FreshIds(t, Affected(t, stage, replay), ids)
  {
    if Affected(t, stage, replay) <= Retired(t, stage, replay) then Err("NO_USABLE_IMPORT_ROWS")
    else Ok(MaterializeOf(t, stage, replay, ids))
  }

  /** rollback: only the pointer moves. */
  function RollbackOf(t: Tables, version: nat): Result<Tables, string> {
    if version !in t.versions then Err("DATASET_VERSION_NOT_FOUND")
    else Ok(t.(current := t.current[t.versions[version].slice := version]))
  }

  /** The dataset tables, with the statements in the order the source runs them. */
  class DatasetStore {
    ghost var versions: map<nat, Version>
    var current: map<Slice, nat>
    var bindings: map<nat, set<nat>>
    var objects: map<nat, nat>
    var shipments: multiset<Fact>
    var transactions: multiset<Fact>

    ghost function View(): Tables
      reads this
    {
      Tables(versions, current, bindings, objects, shipments, transactions)
    }

    method MaterializeImportSlices(stage: seq<Row>, replay: set<nat>, ids: map<Slice, nat>) returns (usable: bool)
      requires FreshIds(View(), Affected(View(), stage, replay), ids)
      modifies this
      ensures View() == MaterializeOf(old(View()), stage, replay, ids)
      ensures usable <==> stage != []
    {
      hide NewVersions, NewBindings, FactsOf, Supersede, Replaced, StagedSlices, Affected;
      ghost var before := View();
      StagedAreAffected(before, stage, replay);
      ghost var newVersions := NewVersions(before, stage, ids);
      var newBindings := NewBindings(stage, ids);
      var newShipments, newTransactions := FactsOf(stage, Shipment, ids), FactsOf(stage, Transaction, ids);
      hide FreshIds;
      versions := versions + newVersions;
      versions := Supersede(versions, Replaced(before, ids));
      current := current + ids;
      bindings := bindings + newBindings;
      shipments := shipments + newShipments;
      transactions := transactions + newTransactions;
      usable := StagedSlices(stage) != {};
      SomethingStaged(stage);
    }

    method Rollback(version: nat, slice: Slice)
      requires version in versions && versions[version].slice == slice
      modifies this`current
      ensures Ok(View()) == RollbackOf(old(View()), version)
      ensures current == old(current)[slice := version]
    {
      current := current[slice := version];
    }
  }

  // ---- the partition of the staged rows ------------------------------------------------------

  /** How often one fact is produced: as often as its row is staged, if it is of the right kind and under the
      new version of the row's own slice, and never otherwise. */
  predicate Becomes(row: Row, kind: Kind, ids: map<Slice, nat>, fact: Fact)
    requires row.slice in ids
  {
    row.kind == kind && fact == Fact(ids[row.slice], row)
  }

  lemma {:induction false} FactsCounted(stage: seq<Row>, kind: Kind, ids: map<Slice, nat>, fact: Fact)
    requires forall r | r in stage :: r.slice in ids
    ensures FactsOf(stage, kind, ids)[fact] ==
              if fact.row in stage && Becomes(fact.row, kind, ids, fact) then multiset(stage)[fact.row] else 0
  {
    if stage != [] {
      FactsCounted(stage[1..], kind, ids, fact);
      RowCounted(stage, fact.row);
    }
  }

  lemma RowCounted(stage: seq<Row>, row: Row)
    requires stage != []
    ensures multiset(stage)[row] == (if row == stage[0] then 1 else 0) + multiset(stage[1..])[row]
    ensures row in stage <==> row == stage[0] || row in stage[1..]
    ensures row !in stage[1..] <==> multiset(stage[1..])[row] == 0
  {
    assert stage == [stage[0]] + stage[1..];
  }

  lemma {:induction false} FactsAddUp(stage: seq<Row>, ids: map<Slice, nat>)
    requires forall r | r in stage :: r.slice in ids
    ensures |FactsOf(stage, Shipment, ids)| + |FactsOf(stage, Transaction, ids)| == |stage|
  {
    if stage != [] {
      FactsAddUp(stage[1..], ids);
    }
  }

  /** Each staged row becomes exactly one fact, of its own kind, under the one new version of its own slice;
      nothing else is added, and no earlier fact is lost. */
  lemma RowsArePartitioned(t: Tables, stage: seq<Row>, replay: set<nat>, ids: map<Slice, nat>, fact: Fact)
    requires FreshIds(t, Affected(t, stage, replay), ids)
    ensures var u := MaterializeOf(t, stage, replay, ids);
            var staged :=
              if fact.row in stage && fact.version == ids[fact.row.slice] then multiset(stage)[fact.row] else 0;
            && u.shipments[fact] - t.shipments[fact] == (if fact.row.kind.Shipment? then staged else 0)
            && u.transactions[fact] - t.transactions[fact] == (if fact.row.kind.Transaction? then staged else 0)
            && |u.shipments| + |u.transactions| == |t.shipments| + |t.transactions| + |stage|
  {
    FactsCounted(stage, Shipment, ids, fact);
    FactsCounted(stage, Transaction, ids, fact);
    FactsAddUp(stage, ids);
  }

  // ---- the version chain ---------------------------------------------------------------------

  /** Foreign keys and the chain: pointers and supersedes stay within the slice, numbers identify the
      versions of a slice, and a version is younger than the one it supersedes. */
  ghost predicate ChainOk(t: Tables) {
    && (forall s | s in t.current :: t.current[s] in t.versions && t.versions[t.current[s]].slice == s)
    && (forall v, w | v in t.versions && w in t.versions && t.versions[v].slice == t.versions[w].slice
         && t.versions[v].number == t.versions[w].number :: v == w)
    && (forall v | v in t.versions && t.versions[v].supersedes.Some? ::
         var previous := t.versions[v].supersedes.value;
         previous in t.versions && t.versions[previous].slice == t.versions[v].slice
         && t.versions[previous].number < t.versions[v].number)
    && t.bindings.Keys <= t.versions.Keys
    && (forall f | f in t.shipments :: f.version in t.versions)
    && (forall f | f in t.transactions :: f.version in t.versions)
  }

  /** What becomes of each version row. */
  lemma VersionsAfter(t: Tables, stage: seq<Row>, replay: set<nat>, ids: map<Slice, nat>, v: nat)
    requires ChainOk(t) && FreshIds(t, Affected(t, stage, replay), ids)
    ensures var u := MaterializeOf(t, stage, replay, ids);
            && (v in u.versions <==> v in t.versions || exists s :: s in ids && ids[s] == v)
            && (v in t.versions ==>
                  u.versions[v] == if v in Replaced(t, ids) then t.versions[v].(status := Superseded)
                                   else t.versions[v])
  {
    hide NewVersion, StagedSlices, Retired, FactsOf, FilesOf, Affected;
    var added := NewVersions(t, stage, ids);
    assert v in added <==> exists s :: s in ids && ids[s] == v;
  }

  lemma NewVersionAfter(t: Tables, stage: seq<Row>, replay: set<nat>, ids: map<Slice, nat>, s: Slice)
    requires ChainOk(t) && FreshIds(t, Affected(t, stage, replay), ids) && s in ids
    ensures var u := MaterializeOf(t, stage, replay, ids);
            ids[s] in u.versions && u.versions[ids[s]] == NewVersion(t, stage, s)
  {
    hide NewVersion, StagedSlices, Retired, FactsOf, FilesOf, Affected;
    var added := NewVersions(t, stage, ids);
    assert ids[s] in added && added[ids[s]] == NewVersion(t, stage, s);
    assert ids[s] !in Replaced(t, ids);
  }

  lemma MaterializeKeepsPointers(t: Tables, stage: seq<Row>, replay: set<nat>, ids: map<Slice, nat>)
    requires ChainOk(t) && FreshIds(t, Affected(t, stage, replay), ids)
    ensures var u := MaterializeOf(t, stage, replay, ids);
            && (forall s | s in u.current :: u.current[s] in u.versions && u.versions[u.current[s]].slice == s)
            && u.bindings.Keys <= u.versions.Keys
  {
    hide NewVersions, Supersede, StagedSlices, Retired, LastNumber, Complete, FactsOf, FilesOf, Affected;
    var u := MaterializeOf(t, stage, replay, ids);
    forall s | s in u.current ensures u.current[s] in u.versions && u.versions[u.current[s]].slice == s {
      if s in ids {
        NewVersionAfter(t, stage, replay, ids, s);
      } else {
        VersionsAfter(t, stage, replay, ids, u.current[s]);
      }
    }
    forall v | v in u.bindings ensures v in u.versions {
      VersionsAfter(t, stage, replay, ids, v);
    }
  }

  lemma MaterializeKeepsFactVersions(t: Tables, stage: seq<Row>, replay: set<nat>, ids: map<Slice, nat>, f: Fact)
    requires ChainOk(t) && FreshIds(t, Affected(t, stage, replay), ids)
    ensures var u := MaterializeOf(t, stage, replay, ids);
            f in u.shipments || f in u.transactions ==> f.version in u.versions
  {
    hide NewVersions, Supersede, StagedSlices, Retired, NewVersion, FactsOf, FilesOf, Affected;
    StagedAreAffected(t, stage, replay);
    FactsCounted(stage, Shipment, ids, f);
    FactsCounted(stage, Transaction, ids, f);
    VersionsAfter(t, stage, replay, ids, f.version);
    if f.row.slice in ids {
      NewVersionAfter(t, stage, replay, ids, f.row.slice);
    }
  }

  lemma StagedAreAffected(t: Tables, stage: seq<Row>, replay: set<nat>)
    ensures forall r | r in stage :: r.slice in Affected(t, stage, replay)
  {
  }

  lemma MaterializeKeepsChain(t: Tables, stage: seq<Row>, replay: set<nat>, ids: map<Slice, nat>)
    requires ChainOk(t) && FreshIds(t, Affected(t, stage, replay), ids)
    ensures ChainOk(MaterializeOf(t, stage, replay, ids))
  {
    hide MaterializeOf, NewVersions, Supersede, StagedSlices, Retired, Complete, Affected;
    var u := MaterializeOf(t, stage, replay, ids);
    MaterializeKeepsPointers(t, stage, replay, ids);
    forall f: Fact ensures f in u.shipments || f in u.transactions ==> f.version in u.versions {
      MaterializeKeepsFactVersions(t, stage, replay, ids, f);
    }
    forall v ensures Described(t, u, stage, ids, v) {
      VersionsAfter(t, stage, replay, ids, v);
      if s :| s in ids && ids[s] == v {
        NewVersionAfter(t, stage, replay, ids, s);
      }
    }
    forall v, w | v in u.versions && w in u.versions && u.versions[v].slice == u.versions[w].slice
                  && u.versions[v].number == u.versions[w].number
      ensures v == w
    {
      assert Described(t, u, stage, ids, v) && Described(t, u, stage, ids, w);
    }
    forall v | v in u.versions && u.versions[v].supersedes.Some?
      ensures var previous := u.versions[v].supersedes.value;
              previous in u.versions && u.versions[previous].slice == u.versions[v].slice
              && u.versions[previous].number < u.versions[v].number
    {
      assert Described(t, u, stage, ids, v) && Described(t, u, stage, ids, u.versions[v].supersedes.value);
    }
  }

  /** A version row is an old one, up to its status, or the new one of an affected slice. */
  ghost predicate Described(t: Tables, u: Tables, stage: seq<Row>, ids: map<Slice, nat>, v: nat) {
    if v in t.versions then v in u.versions && u.versions[v] == t.versions[v].(status := u.versions[v].status)
    else v in u.versions ==> exists s :: s in ids && ids[s] == v && u.versions[v] == NewVersion(t, stage, s)
  }

  lemma RollbackKeepsChain(t: Tables, version: nat)
    requires ChainOk(t)
    ensures version in t.versions ==> RollbackOf(t, version).Ok? && ChainOk(RollbackOf(t, version).value)
    ensures version !in t.versions ==> RollbackOf(t, version) == Err("DATASET_VERSION_NOT_FOUND")
  {
  }

  ghost predicate SupersedesChain(t: Tables, chain: seq<nat>) {
    forall i | 0 <= i < |chain| - 1 :: chain[i] in t.versions && t.versions[chain[i]].supersedes == Some(chain[i + 1])
  }

  /** Following supersedes never returns: numbers descend along every chain. */
  lemma {:induction false} SupersedesIsAcyclic(t: Tables, chain: seq<nat>)
    requires ChainOk(t) && SupersedesChain(t, chain) && |chain| >= 2
    ensures chain[0] in t.versions && chain[|chain| - 1] in t.versions
    ensures t.versions[chain[|chain| - 1]].number < t.versions[chain[0]].number
    ensures chain[0] != chain[|chain| - 1]
  {
    assert t.versions[chain[0]].supersedes == Some(chain[1]);
    if |chain| > 2 {
      assert SupersedesChain(t, chain[1..]);
      SupersedesIsAcyclic(t, chain[1..]);
    }
  }

  // ---- slices --------------------------------------------------------------------------------

  /** Nothing of the slice is missing: it has shipments, or orders, all of them shipped by the merchant. */
  predicate NothingMissing(stage: seq<Row>, slice: Slice) {
    || (exists r | r in stage :: r.slice == slice && r.kind.Shipment?)
    || ((exists r | r in stage :: r.slice == slice && r.kind.Transaction? && r.isOrder)
        && forall r | r in stage && r.slice == slice && r.kind.Transaction? && r.isOrder :: r.byMerchant)
  }

  lemma CompleteExactly(stage: seq<Row>, slice: Slice)
    ensures Complete(stage, slice) <==> NothingMissing(stage, slice)
  {
  }

  /** The number after the last one of the slice, counting from one. */
  predicate FollowsLast(t: Tables, slice: Slice, number: nat) {
    && (forall v | v in t.versions && t.versions[v].slice == slice :: t.versions[v].number < number)
    && (number == 1 || exists v | v in t.versions :: t.versions[v].slice == slice && t.versions[v].number == number - 1)
  }

  /** Exactly the staged and the retired slices move, each to one new version of its own that follows all
      earlier ones, supersedes the current one, and is ACTIVE exactly when nothing of the slice is missing. */
  lemma SlicesAfter(t: Tables, stage: seq<Row>, replay: set<nat>, ids: map<Slice, nat>, slice: Slice)
    requires ChainOk(t) && FreshIds(t, Affected(t, stage, replay), ids)
    ensures var u := MaterializeOf(t, stage, replay, ids);
            if slice in Affected(t, stage, replay) then
              && slice in u.current && u.current[slice] !in t.versions && u.current[slice] in u.versions
              && u.versions[u.current[slice]].slice == slice
              && u.versions[u.current[slice]].supersedes
                 == (if slice in t.current then Some(t.current[slice]) else None)
              && u.versions[u.current[slice]].status == (if NothingMissing(stage, slice) then Active else Incomplete)
              && FollowsLast(t, slice, u.versions[u.current[slice]].number)
            else
              && (slice in u.current <==> slice in t.current)
              && (slice in t.current ==> u.current[slice] == t.current[slice])
  {
    hide NewVersions, Supersede, Complete, NothingMissing, Affected, FactsOf, FilesOf, ChainOk;
    CompleteExactly(stage, slice);
    if slice in ids {
      NewVersionAfter(t, stage, replay, ids, slice);
    }
  }

  /** The rows of the earlier versions stay, but for the status of those that were current of an affected
      slice, and there are no other versions than these and one for each affected slice. */
  lemma OldVersionsAfter(t: Tables, stage: seq<Row>, replay: set<nat>, ids: map<Slice, nat>, v: nat)
    requires ChainOk(t) && FreshIds(t, Affected(t, stage, replay), ids)
    ensures var u := MaterializeOf(t, stage, replay, ids);
            && (v in t.versions ==>
                  v in u.versions
                  && u.versions[v]
                     == if exists s | s in t.current && t.current[s] == v :: s in Affected(t, stage, replay)
                        then t.versions[v].(status := Superseded) else t.versions[v])
            && (v in u.versions && v !in t.versions ==> exists s | s in Affected(t, stage, replay) :: u.current[s] == v)
  {
    hide NewVersion, StagedSlices, Retired, FactsOf, FilesOf, Affected, NewVersions, Supersede, ChainOk;
    VersionsAfter(t, stage, replay, ids, v);
  }

  /** Exactly the files of its staged rows are the sources of a new version; those of earlier versions and the
      objects behind the files stay. */
  lemma SourcesAfter(t: Tables, stage: seq<Row>, replay: set<nat>, ids: map<Slice, nat>, slice: Slice, version: nat)
    requires ChainOk(t) && FreshIds(t, Affected(t, stage, replay), ids)
    ensures var u := MaterializeOf(t, stage, replay, ids);
            && (slice in Affected(t, stage, replay) ==>
                  && slice in u.current && u.current[slice] in u.bindings
                  && forall f :: f in u.bindings[u.current[slice]] <==>
                                 exists r | r in stage :: r.slice == slice && r.file == f)
            && (version in t.versions ==>
                  (version in u.bindings <==> version in t.bindings)
                  && (version in t.bindings ==> u.bindings[version] == t.bindings[version]))
            && u.objects == t.objects
  {
    hide NewVersions, Supersede, FactsOf, Affected;
  }

  /** The new version of a staged slice holds that slice's rows; the version of a retired slice is empty. */
  lemma NewVersionHolds(t: Tables, stage: seq<Row>, replay: set<nat>, ids: map<Slice, nat>, slice: Slice, f: Fact)
    requires ChainOk(t) && FreshIds(t, Affected(t, stage, replay), ids) && slice in ids && f.version == ids[slice]
    ensures var u := MaterializeOf(t, stage, replay, ids);
            && u.shipments[f] == (if f.row.slice == slice && f.row.kind.Shipment? then multiset(stage)[f.row] else 0)
            && u.transactions[f]
               == (if f.row.slice == slice && f.row.kind.Transaction? then multiset(stage)[f.row] else 0)
    ensures slice !in StagedSlices(stage) && f.row.slice == slice ==> multiset(stage)[f.row] == 0
  {
    hide NewVersions, Supersede, Affected, FilesOf;
    StagedAreAffected(t, stage, replay);
    FactsCounted(stage, Shipment, ids, f);
    FactsCounted(stage, Transaction, ids, f);
    assert f !in t.shipments && f !in t.transactions;
    assert f.row in stage ==> f.row.slice in StagedSlices(stage);
  }

  /** When a slice is retired. */
  lemma RetiredExactly(t: Tables, stage: seq<Row>, replay: set<nat>, slice: Slice)
    ensures slice in Affected(t, stage, replay) && slice !in StagedSlices(stage) <==>
              (forall r | r in stage :: r.slice != slice) && Replayed(t, slice, replay)
  {
  }

  /** The batch gave the slice a version of its own that holds nothing. */
  ghost predicate Emptied(t: Tables, u: Tables, slice: Slice) {
    && slice in u.current && u.current[slice] !in t.versions
    && (forall f: Fact | f.version == u.current[slice] :: f !in u.shipments && f !in u.transactions)
  }

  /** All facts of a version are still there, and no others. */
  ghost predicate Untouched(t: Tables, u: Tables, version: nat) {
    forall f: Fact | f.version == version :: u.shipments[f] == t.shipments[f] && u.transactions[f] == t.transactions[f]
  }

  lemma OldFactsStay(t: Tables, stage: seq<Row>, replay: set<nat>, ids: map<Slice, nat>, version: nat)
    requires FreshIds(t, Affected(t, stage, replay), ids) && version in t.versions
    ensures Untouched(t, MaterializeOf(t, stage, replay, ids), version)
  {
    hide NewVersions, Supersede, NewBindings, Retired, FactsOf;
    forall f: Fact | f.version == version
      ensures var u := MaterializeOf(t, stage, replay, ids);
              u.shipments[f] == t.shipments[f] && u.transactions[f] == t.transactions[f]
    {
      RowsArePartitioned(t, stage, replay, ids, f);
    }
  }

  lemma EmptiedExactly(t: Tables, stage: seq<Row>, replay: set<nat>, ids: map<Slice, nat>, slice: Slice)
    requires ChainOk(t) && FreshIds(t, Affected(t, stage, replay), ids)
    ensures Emptied(t, MaterializeOf(t, stage, replay, ids), slice) <==> slice in ids && slice !in StagedSlices(stage)
  {
    hide NewVersions, Supersede, NewBindings, Retired, FactsOf, StagedSlices, Affected;
    var u := MaterializeOf(t, stage, replay, ids);
    if slice in ids {
      forall f: Fact | f.version == ids[slice]
        ensures slice !in StagedSlices(stage) ==> f !in u.shipments && f !in u.transactions
      {
        NewVersionHolds(t, stage, replay, ids, slice, f);
      }
      if slice in StagedSlices(stage) {
        var r := StagedRow(stage, slice);
        NewVersionHolds(t, stage, replay, ids, slice, Fact(ids[slice], r));
      }
    }
  }

  lemma StagedRow(stage: seq<Row>, slice: Slice) returns (r: Row)
    requires slice in StagedSlices(stage)
    ensures r in stage && r.slice == slice && multiset(stage)[r] > 0
  {
    r :| r in stage && r.slice == slice;
  }

  /** All files behind the slice's current version, and there are some, come from the replayed objects. */
  predicate AllSourcesReplayed(t: Tables, slice: Slice, replay: set<nat>) {
    && slice in t.current && t.current[slice] in t.bindings && t.bindings[t.current[slice]] != {}
    && forall f | f in t.bindings[t.current[slice]] :: f in t.objects && t.objects[f] in replay
  }

  /** A slice loses its data exactly when the batch stages none of its rows and replays every file behind its
      current version. It then has an incomplete version without sources, which supersedes the old one, and
      the old one keeps its facts. */
  lemma RetiredSliceAfter(t: Tables, stage: seq<Row>, replay: set<nat>, ids: map<Slice, nat>, slice: Slice)
    requires ChainOk(t) && FreshIds(t, Affected(t, stage, replay), ids)
    ensures var u := MaterializeOf(t, stage, replay, ids);
            && (Emptied(t, u, slice) <==>
                  (forall r | r in stage :: r.slice != slice) && AllSourcesReplayed(t, slice, replay))
            && (Emptied(t, u, slice) ==>
                  var before, after := t.current[slice], u.current[slice];
                  && after in u.versions && u.versions[after].status.Incomplete?
                  && u.versions[after].supersedes == Some(before)
                  && after in u.bindings && u.bindings[after] == {}
                  && before in u.versions && u.versions[before].status.Superseded? && Untouched(t, u, before))
  {
    hide MaterializeOf, Emptied, Untouched, Retired, StagedSlices;
    var u := MaterializeOf(t, stage, replay, ids);
    EmptiedExactly(t, stage, replay, ids, slice);
    RetiredExactly(t, stage, replay, slice);
    if Emptied(t, u, slice) {
      RetiredVersions(t, stage, replay, ids, slice);
      OldFactsStay(t, stage, replay, ids, t.current[slice]);
    }
  }

  /** Across two commits: what one imported into a slice is taken out again by the next exactly when that one
      stages nothing there and replays the objects of all files whose rows the first staged there. */
  lemma ImportedThenRetired(t: Tables, stage: seq<Row>, replay: set<nat>, ids: map<Slice, nat>, slice: Slice,
                            later: seq<Row>, replayed: set<nat>, more: map<Slice, nat>)
    requires ChainOk(t) && FreshIds(t, Affected(t, stage, replay), ids) && exists r | r in stage :: r.slice == slice
    requires var u := MaterializeOf(t, stage, replay, ids); FreshIds(u, Affected(u, later, replayed), more)
    ensures var u := MaterializeOf(t, stage, replay, ids);
            Emptied(u, MaterializeOf(u, later, replayed, more), slice) <==>
              && (forall r | r in later :: r.slice != slice)
              && (forall r | r in stage && r.slice == slice :: r.file in t.objects && t.objects[r.file] in replayed)
  {
    hide MaterializeOf, Emptied, ChainOk, Retired, FreshIds;
    var u := MaterializeOf(t, stage, replay, ids);
    MaterializeKeepsChain(t, stage, replay, ids);
    SourcesAfter(t, stage, replay, ids, slice, 0);
    RetiredSliceAfter(u, later, replayed, more, slice);
    var r :| r in stage && r.slice == slice;
    assert slice in StagedSlices(stage) && r.file in u.bindings[u.current[slice]];
  }

  lemma RetiredVersions(t: Tables, stage: seq<Row>, replay: set<nat>, ids: map<Slice, nat>, slice: Slice)
    requires ChainOk(t) && FreshIds(t, Affected(t, stage, replay), ids)
    requires slice in t.current && slice in ids && slice !in StagedSlices(stage)
    ensures var u := MaterializeOf(t, stage, replay, ids);
            && u.current[slice] == ids[slice] && ids[slice] in u.versions
            && u.versions[ids[slice]].status.Incomplete? && u.versions[ids[slice]].supersedes == Some(t.current[slice])
            && ids[slice] in u.bindings && u.bindings[ids[slice]] == {}
            && t.current[slice] in u.versions && u.versions[t.current[slice]].status.Superseded?
  {
    hide NewVersions, Supersede, Affected, Retired, FactsOf, LastNumber;
    NewVersionAfter(t, stage, replay, ids, slice);
    VersionsAfter(t, stage, replay, ids, t.current[slice]);
    assert t.current[slice] in Replaced(t, ids);
    assert FilesOf(stage, slice) == {} by { NothingStagedThere(stage, slice); }
    assert !Complete(stage, slice) by { NothingStagedThere(stage, slice); }
  }

  lemma NothingStagedThere(stage: seq<Row>, slice: Slice)
    requires slice !in StagedSlices(stage)
    ensures forall r | r in stage :: r.slice != slice
  {
  }

  /** A commit succeeds exactly when some row was staged, whatever it would retire. */
  lemma UsableExactly(t: Tables, stage: seq<Row>, replay: set<nat>, ids: map<Slice, nat>)
    requires FreshIds(t, Affected(t, stage, replay), ids)
    ensures CommitOf(t, stage, replay, ids).Ok? <==> stage != []
    ensures stage != [] ==> CommitOf(t, stage, replay, ids).value == MaterializeOf(t, stage, replay, ids)
    ensures stage == [] ==> CommitOf(t, stage, replay, ids).error == "NO_USABLE_IMPORT_ROWS"
  {
    hide MaterializeOf;
    if stage != [] {
      assert stage[0].slice in StagedSlices(stage);
    }
  }

  /** Each slice with a pointer has exactly one version that is not superseded: the current one. */
  ghost predicate OneLive(t: Tables) {
    forall v | v in t.versions ::
      !t.versions[v].status.Superseded? <==> t.versions[v].slice in t.current && t.current[t.versions[v].slice] == v
  }

  lemma MaterializeKeepsOneLive(t: Tables, stage: seq<Row>, replay: set<nat>, ids: map<Slice, nat>)
    requires ChainOk(t) && OneLive(t) && FreshIds(t, Affected(t, stage, replay), ids)
    ensures OneLive(MaterializeOf(t, stage, replay, ids))
  {
    hide NewVersions, Supersede, StagedSlices, Retired, LastNumber, Complete, FactsOf;
    var u := MaterializeOf(t, stage, replay, ids);
    forall v | v in u.versions
      ensures !u.versions[v].status.Superseded? <==>
              u.versions[v].slice in u.current && u.current[u.versions[v].slice] == v
    {
      VersionsAfter(t, stage, replay, ids, v);
      if s :| s in ids && ids[s] == v {
        NewVersionAfter(t, stage, replay, ids, s);
      }
    }
  }

  /** A rollback keeps that only when it changes nothing. */
  lemma RollbackKeepsOneLiveExactly(t: Tables, version: nat)
    requires ChainOk(t) && OneLive(t) && version in t.versions
    ensures OneLive(RollbackOf(t, version).value) <==> Pointer(t, t.versions[version].slice) == Some(version)
  {
    var u := RollbackOf(t, version).value;
    if OneLive(u) {
      assert u.versions[version] == t.versions[version];
    } else {
      assert u.current != t.current;
    }
  }

  /** So going back to the version an import has just replaced always leaves the slice with a superseded
      current version. */
  lemma UndoingAnImportBreaksOneLive(t: Tables, stage: seq<Row>, replay: set<nat>, ids: map<Slice, nat>, slice: Slice)
    requires ChainOk(t) && OneLive(t) && FreshIds(t, Affected(t, stage, replay), ids)
    requires slice in t.current && slice in ids
    ensures var u := MaterializeOf(t, stage, replay, ids);
            && ChainOk(u) && OneLive(u) && t.current[slice] in u.versions
            && RollbackOf(u, t.current[slice]).Ok? && !OneLive(RollbackOf(u, t.current[slice]).value)
  {
    hide MaterializeOf, ChainOk, OneLive, Affected;
    var u := MaterializeOf(t, stage, replay, ids);
    MaterializeKeepsChain(t, stage, replay, ids);
    MaterializeKeepsOneLive(t, stage, replay, ids);
    CurrentVersion(t, slice);
    VersionsAfter(t, stage, replay, ids, t.current[slice]);
    SlicesAfter(t, stage, replay, ids, slice);
    RollbackKeepsOneLiveExactly(u, t.current[slice]);
  }

  lemma CurrentVersion(t: Tables, slice: Slice)
    requires ChainOk(t) && slice in t.current
    ensures t.current[slice] in t.versions && t.versions[t.current[slice]].slice == slice
  {
  }

  const NOTHING := Tables(map[], map[], map[], map[], multiset{}, multiset{})

  lemma NothingIsOk()
    ensures ChainOk(NOTHING) && OneLive(NOTHING)
  {
  }

  /** It does happen: from empty tables one month is imported twice, and the first import rolled back to. */
  lemma RollbackCanBreakOneLive()
    ensures exists t, version :: ChainOk(t) && OneLive(t) && version in t.versions
                                 && !OneLive(RollbackOf(t, version).value)
  {
    hide MaterializeOf, ChainOk, OneLive;
    NothingIsOk();
    var slice := Slice("DE", 1);
    var stage := [Row(Transaction, slice, 1, 1, true, true, [])];
    StagedOnce(NOTHING, stage[0]);
    var first := MaterializeOf(NOTHING, stage, {}, map[slice := 0]);
    MaterializeKeepsChain(NOTHING, stage, {}, map[slice := 0]);
    MaterializeKeepsOneLive(NOTHING, stage, {}, map[slice := 0]);
    FirstVersion(stage, slice);
    StagedOnce(first, stage[0]);
    UndoingAnImportBreaksOneLive(first, stage, {}, map[slice := 1], slice);
  }

  lemma StagedOnce(t: Tables, row: Row)
    ensures Affected(t, [row], {}) == {row.slice}
  {
    assert forall file :: !FromReplay(t, file, {});
    assert StagedSlices([row]) == {row.slice} by { assert [row][0] in [row]; }
  }

  lemma FirstVersion(stage: seq<Row>, slice: Slice)
    requires FreshIds(NOTHING, Affected(NOTHING, stage, {}), map[slice := 0])
    ensures var u := MaterializeOf(NOTHING, stage, {}, map[slice := 0]);
            slice in u.current && FreshIds(u, {slice}, map[slice := 1])
  {
    hide OneLive, ChainOk, NewVersion, FactsOf, Affected;
    NothingIsOk();
    VersionsAfter(NOTHING, stage, {}, map[slice := 0], 1);
  }
}
