/** Copying one mapped file row by row: which rows are inserted, excluded or counted as errors, how the
    errors are grouped, and what the counters add up to. */
module RowCounting {
  import opened Prelude

  /** A normaliser's answer: a value, an error code that is safe to record for the row, or anything else,
      which aborts the commit. */
  datatype Parsed = Good(value: int) | Invalid(code: string) | Broken

  datatype Site = Amazon(code: string) | NonAmazon | UnknownSite

  datatype Kind = Shipment | Transaction

  /** A mapped row: its marketplace cell and the field that held it, and what the normalisers say of its other
      cells; components are the amount cells in the order they are read. */
  datatype Row = Row(number: nat, siteField: string, blankSite: bool, site: Site, date: Parsed, total: Parsed,
                     quantity: Parsed, productPrice: Parsed, components: seq<(string, Parsed)>, written: bool)

  datatype Outcome = Inserted | Excluded(amount: int) | Errored(code: string, field: string) | Aborted

  // ---- one row -------------------------------------------------------------------------------

  /** rowValidationError. */
  function Failure(p: Parsed, field: string): Outcome
    requires !p.Good?
  {
    if p.Invalid? then Errored(p.code, field) else Aborted
  }

  function FirstBad(components: seq<(string, Parsed)>): Option<Outcome> {
    if components == [] then None
    else if !components[0].1.Good? then Some(Failure(components[0].1, components[0].0))
    else FirstBad(components[1..])
  }

  function SiteOf(kind: Kind, inferred: Option<string>, row: Row): Site {
    if kind.Transaction? && row.blankSite && inferred.Some? then Amazon(inferred.value)
    else if row.blankSite then UnknownSite
    else row.site
  }

  function Classify(kind: Kind, inferred: Option<string>, row: Row): Outcome {
    match SiteOf(kind, inferred, row)
    case UnknownSite => Errored("IMPORT_UNKNOWN_MARKETPLACE", row.siteField)
    case NonAmazon =>
      var amount := if kind.Transaction? then row.total else row.productPrice;
      if kind.Shipment? && !row.quantity.Good? then Failure(row.quantity, "quantity")
      else if !amount.Good? then Failure(amount, if kind.Transaction? then "total" else "product_price")
      else Excluded(amount.value)
    case Amazon(_) =>
      if !row.date.Good? then Failure(row.date, "date_time")
      else if kind.Transaction? && !row.total.Good? then Failure(row.total, "total")
      else if !row.quantity.Good? then Failure(row.quantity, "quantity")
      else if FirstBad(row.components).Some? then FirstBad(row.components).value
      else if row.written then Inserted else Aborted
  }

  // ---- what an outcome means -----------------------------------------------------------------

  /** A blank marketplace cell of a transaction stands for the inferred site, and otherwise for none. */
  predicate OnAmazon(kind: Kind, inferred: Option<string>, row: Row) {
    if row.blankSite then kind.Transaction? && inferred.Some? else row.site.Amazon?
  }

  predicate OffAmazon(row: Row) {
    !row.blankSite && row.site.NonAmazon?
  }

  /** The cells a row needs, in the order they are read. */
  function Needed(kind: Kind, inferred: Option<string>, row: Row): seq<(string, Parsed)> {
    if OnAmazon(kind, inferred, row) then
      [("date_time", row.date)] + (if kind.Transaction? then [("total", row.total)] else [])
      + [("quantity", row.quantity)] + row.components
    else if kind.Transaction? then [("total", row.total)]
    else [("quantity", row.quantity), ("product_price", row.productPrice)]
  }

  predicate AllGood(cells: seq<(string, Parsed)>) {
    forall i | 0 <= i < |cells| :: cells[i].1.Good?
  }

  predicate FirstBadAt(cells: seq<(string, Parsed)>, n: nat) {
    n < |cells| && !cells[n].1.Good? && forall i | 0 <= i < n :: cells[i].1.Good?
  }

  lemma {:induction false} FirstBadIs(components: seq<(string, Parsed)>) returns (n: nat)
    ensures FirstBad(components).None? <==> AllGood(components)
    ensures FirstBad(components).Some? ==>
              FirstBadAt(components, n) && FirstBad(components) == Some(Failure(components[n].1, components[n].0))
  {
    n := 0;
    if components != [] && components[0].1.Good? {
      var m := FirstBadIs(components[1..]);
      n := m + 1;
      assert forall i | 0 < i < |components| :: components[i] == components[1..][i - 1];
      assert forall i | 0 <= i < |components[1..]| :: components[1..][i] == components[i + 1];
    }
  }

  /** What becomes of a row. With an unknown site it is an error of its marketplace cell; otherwise its cells are
      read in order, and the first that does not resolve decides: an invalid one is an error of that cell, any
      other failure aborts. A row whose cells all resolve is inserted if its site is on Amazon, and excluded with
      the last amount read if it is not. */
  lemma OutcomeExactly(kind: Kind, inferred: Option<string>, row: Row)
    ensures var o, cells := Classify(kind, inferred, row), Needed(kind, inferred, row);
            if !OnAmazon(kind, inferred, row) && !OffAmazon(row) then
              o == Errored("IMPORT_UNKNOWN_MARKETPLACE", row.siteField)
            else if AllGood(cells) then
              if OffAmazon(row) then o == Excluded(cells[|cells| - 1].1.value)
              else o == if row.written then Inserted else Aborted
            else exists n: nat :: FirstBadAt(cells, n)
                   && match cells[n].1
                      case Invalid(code) => o == Errored(code, cells[n].0)
                      case Broken => o == Aborted
                      case Good(_) => false
  {
    hide FirstBad, AllGood, FirstBadAt;
    var cells := Needed(kind, inferred, row);
    var n := FirstBadIs(cells);
    if OnAmazon(kind, inferred, row) {
      BadOnAmazon(kind, inferred, row);
    } else if OffAmazon(row) {
      BadOffAmazon(kind, inferred, row);
    }
  }

  lemma {:induction false} FirstBadAppends(a: seq<(string, Parsed)>, b: seq<(string, Parsed)>)
    ensures FirstBad(a + b) == if FirstBad(a).Some? then FirstBad(a) else FirstBad(b)
  {
    if a == [] {
      assert a + b == b;
    } else {
      FirstBadAppends(a[1..], b);
      assert (a + b)[1..] == a[1..] + b;
    }
  }

  lemma FirstBadOfOne(field: string, p: Parsed)
    ensures FirstBad([(field, p)]) == if p.Good? then None else Some(Failure(p, field))
  {
    assert [(field, p)][1..] == [];
  }

  lemma BadOnAmazon(kind: Kind, inferred: Option<string>, row: Row)
    requires OnAmazon(kind, inferred, row)
    ensures var bad := FirstBad(Needed(kind, inferred, row));
            Classify(kind, inferred, row) == if bad.Some? then bad.value else if row.written then Inserted else Aborted
  {
    hide FirstBad;
    FirstBadOfOne("date_time", row.date);
    FirstBadOfOne("total", row.total);
    FirstBadOfOne("quantity", row.quantity);
    assert FirstBad([]).None? by { NoCellIsBad(); }
    var total := if kind.Transaction? then [("total", row.total)] else [];
    FirstBadAppends([("date_time", row.date)], total);
    FirstBadAppends([("date_time", row.date)] + total, [("quantity", row.quantity)]);
    FirstBadAppends([("date_time", row.date)] + total + [("quantity", row.quantity)], row.components);
  }

  lemma NoCellIsBad()
    ensures FirstBad([]).None?
  {
  }

  lemma BadOffAmazon(kind: Kind, inferred: Option<string>, row: Row)
    requires OffAmazon(row)
    ensures var cells := Needed(kind, inferred, row);
            var bad := FirstBad(cells);
            && cells != [] && (bad.None? ==> cells[|cells| - 1].1.Good?)
            && Classify(kind, inferred, row) == if bad.Some? then bad.value else Excluded(cells[|cells| - 1].1.value)
  {
    hide FirstBad;
    FirstBadOfOne("total", row.total);
    FirstBadOfOne("quantity", row.quantity);
    FirstBadOfOne("product_price", row.productPrice);
    FirstBadAppends([("quantity", row.quantity)], [("product_price", row.productPrice)]);
    assert [("quantity", row.quantity)] + [("product_price", row.productPrice)]
           == [("quantity", row.quantity), ("product_price", row.productPrice)];
  }

  // ---- what the counters mean ----------------------------------------------------------------

  function CountInserted(outcomes: seq<Outcome>): nat {
    if outcomes == [] then 0
    else CountInserted(outcomes[..|outcomes| - 1]) + (if outcomes[|outcomes| - 1].Inserted? then 1 else 0)
  }

  function CountExcluded(outcomes: seq<Outcome>): nat {
    if outcomes == [] then 0
    else CountExcluded(outcomes[..|outcomes| - 1]) + (if outcomes[|outcomes| - 1].Excluded? then 1 else 0)
  }

  function CountErrored(outcomes: seq<Outcome>): nat {
    if outcomes == [] then 0
    else CountErrored(outcomes[..|outcomes| - 1]) + (if outcomes[|outcomes| - 1].Errored? then 1 else 0)
  }

  function ExcludedAmount(outcomes: seq<Outcome>): int {
    if outcomes == [] then 0
    else
      var last := outcomes[|outcomes| - 1];
      ExcludedAmount(outcomes[..|outcomes| - 1]) + (if last.Excluded? then last.amount else 0)
  }

  datatype Group = Group(code: string, field: string, rowNumber: nat, count: nat)

  const MAX_GROUPS := 100

  function CountMatching(outcomes: seq<Outcome>, code: string, field: string): nat {
    if outcomes == [] then 0
    else
      CountMatching(outcomes[..|outcomes| - 1], code, field)
      + (if outcomes[|outcomes| - 1] == Errored(code, field) then 1 else 0)
  }

  /** The different (code, field) pairs of the errored rows. */
  function Pairs(outcomes: seq<Outcome>): set<(string, string)> {
    set o | o in outcomes && o.Errored? :: (o.code, o.field)
  }

  function GroupPairs(groups: seq<Group>): set<(string, string)> {
    set g | g in groups :: (g.code, g.field)
  }

  function SumCounts(groups: seq<Group>): nat {
    if groups == [] then 0 else SumCounts(groups[..|groups| - 1]) + groups[|groups| - 1].count
  }

  predicate DistinctGroups(groups: seq<Group>) {
    forall i, j | 0 <= i < j < |groups| :: (groups[i].code, groups[i].field) != (groups[j].code, groups[j].field)
  }

  function Outcomes(kind: Kind, inferred: Option<string>, rows: seq<Row>): (outcomes: seq<Outcome>)
    ensures |outcomes| == |rows|
  {
    seq(|rows|, i requires 0 <= i < |rows| => Classify(kind, inferred, rows[i]))
  }

  lemma {:induction false} SumIncrements(groups: seq<Group>, i: nat)
    requires i < |groups|
    ensures SumCounts(groups[i := groups[i].(count := groups[i].count + 1)]) == SumCounts(groups) + 1
  {
    var more := groups[i := groups[i].(count := groups[i].count + 1)];
    if i < |groups| - 1 {
      SumIncrements(groups[..|groups| - 1], i);
      assert more[..|groups| - 1] == groups[..|groups| - 1][i := more[i]];
    } else {
      assert more[..|groups| - 1] == groups[..|groups| - 1];
    }
  }

  // ---- grouping the errors -------------------------------------------------------------------

  function IndexOf(groups: seq<Group>, code: string, field: string): (n: nat)
    ensures n <= |groups| && forall i | 0 <= i < n :: (groups[i].code, groups[i].field) != (code, field)
    ensures n < |groups| ==> (groups[n].code, groups[n].field) == (code, field)
  {
    if groups == [] then 0
    else if (groups[0].code, groups[0].field) == (code, field) then 0
    else 1 + IndexOf(groups[1..], code, field)
  }

  function Record(groups: seq<Group>, code: string, field: string, rowNumber: nat): seq<Group> {
    var n := IndexOf(groups, code, field);
    if n < |groups| then groups[n := groups[n].(count := groups[n].count + 1)]
    else if |groups| < MAX_GROUPS then groups + [Group(code, field, rowNumber, 1)]
    else groups
  }

  /** Groups are different, at most a hundred, and stand for errors that occurred; below a hundred none is
      missing. */
  predicate Grouped(groups: seq<Group>, seen: seq<Outcome>) {
    && DistinctGroups(groups) && |groups| <= MAX_GROUPS && GroupPairs(groups) <= Pairs(seen)
    && (|groups| < MAX_GROUPS ==> GroupPairs(groups) == Pairs(seen))
  }

  predicate Counted(groups: seq<Group>, seen: seq<Outcome>) {
    && SumCounts(groups) <= CountErrored(seen)
    && (GroupPairs(groups) == Pairs(seen) <==> SumCounts(groups) == CountErrored(seen))
    && forall g | g in groups :: g.count == CountMatching(seen, g.code, g.field)
  }

  /** The group of an error names the first row that had it. */
  predicate NamesFirst(g: Group, seen: seq<Outcome>, numbers: seq<nat>) {
    |numbers| == |seen| && exists n | 0 <= n < |seen| :: IsFirst(g, seen, numbers, n)
  }

  predicate IsFirst(g: Group, seen: seq<Outcome>, numbers: seq<nat>, n: nat) {
    n < |seen| == |numbers| && seen[n] == Errored(g.code, g.field) && numbers[n] == g.rowNumber
    && forall m | 0 <= m < n :: seen[m] != Errored(g.code, g.field)
  }

  predicate NameFirst(groups: seq<Group>, seen: seq<Outcome>, numbers: seq<nat>) {
    |numbers| == |seen| && forall i | 0 <= i < |groups| :: NamesFirst(groups[i], seen, numbers)
  }

  lemma StillFirst(g: Group, h: Group, seen: seq<Outcome>, numbers: seq<nat>, o: Outcome, number: nat)
    requires NamesFirst(g, seen, numbers) && h == g.(count := h.count)
    ensures NamesFirst(h, seen + [o], numbers + [number])
  {
    var n :| 0 <= n < |seen| && IsFirst(g, seen, numbers, n);
    assert IsFirst(h, seen + [o], numbers + [number], n);
  }

  lemma OtherKeepsFirst(groups: seq<Group>, seen: seq<Outcome>, numbers: seq<nat>, o: Outcome, number: nat)
    requires NameFirst(groups, seen, numbers)
    ensures NameFirst(groups, seen + [o], numbers + [number])
  {
    forall i | 0 <= i < |groups| ensures NamesFirst(groups[i], seen + [o], numbers + [number]) {
      StillFirst(groups[i], groups[i], seen, numbers, o, number);
    }
  }

  lemma RecordKeepsFirst(groups: seq<Group>, seen: seq<Outcome>, numbers: seq<nat>, code: string, field: string,
                         number: nat)
    requires NameFirst(groups, seen, numbers) && Grouped(groups, seen)
    ensures NameFirst(Record(groups, code, field, number), seen + [Errored(code, field)], numbers + [number])
  {
    hide NamesFirst, Pairs, GroupPairs;
    var o, more := Errored(code, field), Record(groups, code, field, number);
    forall i | 0 <= i < |more| ensures NamesFirst(more[i], seen + [o], numbers + [number]) {
      if i < |groups| {
        StillFirst(groups[i], more[i], seen, numbers, o, number);
      } else {
        NewIsFirst(groups, seen, numbers, code, field, number);
      }
    }
  }

  lemma NewIsFirst(groups: seq<Group>, seen: seq<Outcome>, numbers: seq<nat>, code: string, field: string, number: nat)
    requires Grouped(groups, seen) && |groups| < MAX_GROUPS && |numbers| == |seen|
    requires IndexOf(groups, code, field) == |groups|
    ensures NamesFirst(Group(code, field, number, 1), seen + [Errored(code, field)], numbers + [number])
  {
    hide GroupPairs;
    NotGrouped(groups, code, field);
    var g := Group(code, field, number, 1);
    forall m | 0 <= m < |seen| ensures seen[m] != Errored(code, field) {
      assert seen[m] in seen;
    }
    assert IsFirst(g, seen + [Errored(code, field)], numbers + [number], |seen|);
  }

  lemma SamePairs(groups: seq<Group>, n: nat, more: seq<Group>)
    requires n < |groups| && more == groups[n := groups[n].(count := groups[n].count + 1)]
    ensures GroupPairs(more) == GroupPairs(groups) && (DistinctGroups(groups) ==> DistinctGroups(more))
    ensures (groups[n].code, groups[n].field) in GroupPairs(groups)
  {
    assert groups[n] in groups;
    forall p ensures p in GroupPairs(more) <==> p in GroupPairs(groups) {
      if p in GroupPairs(more) {
        var i :| 0 <= i < |more| && (more[i].code, more[i].field) == p;
        assert groups[i] in groups;
      }
      if p in GroupPairs(groups) {
        var i :| 0 <= i < |groups| && (groups[i].code, groups[i].field) == p;
        assert more[i] in more;
      }
    }
  }

  lemma OneMorePair(groups: seq<Group>, g: Group)
    ensures GroupPairs(groups + [g]) == GroupPairs(groups) + {(g.code, g.field)}
    ensures SumCounts(groups + [g]) == SumCounts(groups) + g.count
  {
    assert (groups + [g])[..|groups|] == groups;
  }

  lemma NotGrouped(groups: seq<Group>, code: string, field: string)
    ensures (code, field) in GroupPairs(groups) <==> IndexOf(groups, code, field) < |groups|
  {
    var n := IndexOf(groups, code, field);
    if n < |groups| { assert groups[n] in groups; }
  }

  lemma SeenOneMore(seen: seq<Outcome>, code: string, field: string)
    ensures var more := seen + [Errored(code, field)];
            && Pairs(more) == Pairs(seen) + {(code, field)} && CountErrored(more) == CountErrored(seen) + 1
            && forall c, f ::
                 CountMatching(more, c, f) == CountMatching(seen, c, f) + (if (c, f) == (code, field) then 1 else 0)
  {
    assert (seen + [Errored(code, field)])[..|seen|] == seen;
  }

  lemma SeenOther(seen: seq<Outcome>, o: Outcome)
    requires !o.Errored?
    ensures Pairs(seen + [o]) == Pairs(seen) && CountErrored(seen + [o]) == CountErrored(seen)
    ensures forall c, f :: CountMatching(seen + [o], c, f) == CountMatching(seen, c, f)
  {
    assert (seen + [o])[..|seen|] == seen;
  }

  /** What one more outcome adds to the counters. */
  lemma CountersGrow(seen: seq<Outcome>, o: Outcome)
    ensures var more := seen + [o];
            && CountInserted(more) == CountInserted(seen) + (if o.Inserted? then 1 else 0)
            && CountExcluded(more) == CountExcluded(seen) + (if o.Excluded? then 1 else 0)
            && CountErrored(more) == CountErrored(seen) + (if o.Errored? then 1 else 0)
            && ExcludedAmount(more) == ExcludedAmount(seen) + (if o.Excluded? then o.amount else 0)
            && (Aborted in more <==> Aborted in seen || o == Aborted)
  {
    assert (seen + [o])[..|seen|] == seen;
  }

  lemma OtherKeepsGroups(groups: seq<Group>, seen: seq<Outcome>, o: Outcome)
    requires Grouped(groups, seen) && Counted(groups, seen) && !o.Errored?
    ensures Grouped(groups, seen + [o]) && Counted(groups, seen + [o])
  {
    hide GroupPairs, Pairs, DistinctGroups, CountErrored, CountMatching, SumCounts;
    SeenOther(seen, o);
  }

  lemma {:induction false} NeverMatched(seen: seq<Outcome>, code: string, field: string)
    requires (code, field) !in Pairs(seen)
    ensures CountMatching(seen, code, field) == 0
  {
    if seen != [] {
      assert forall o | o in seen[..|seen| - 1] :: o in seen;
      assert seen[|seen| - 1] in seen;
      NeverMatched(seen[..|seen| - 1], code, field);
    }
  }

  lemma NewGroupIsDistinct(groups: seq<Group>, g: Group)
    requires DistinctGroups(groups) && IndexOf(groups, g.code, g.field) == |groups|
    ensures DistinctGroups(groups + [g])
  {
  }

  lemma RecordKeepsGrouped(groups: seq<Group>, seen: seq<Outcome>, code: string, field: string, rowNumber: nat)
    requires Grouped(groups, seen)
    ensures Grouped(Record(groups, code, field, rowNumber), seen + [Errored(code, field)])
  {
    hide GroupPairs, Pairs, DistinctGroups, CountErrored, CountMatching;
    NotGrouped(groups, code, field);
    SeenOneMore(seen, code, field);
    var n := IndexOf(groups, code, field);
    if n < |groups| {
      SamePairs(groups, n, Record(groups, code, field, rowNumber));
    } else if |groups| < MAX_GROUPS {
      NewGroupIsDistinct(groups, Group(code, field, rowNumber, 1));
      OneMorePair(groups, Group(code, field, rowNumber, 1));
    }
  }

  lemma RecordKeepsCounted(groups: seq<Group>, seen: seq<Outcome>, code: string, field: string, rowNumber: nat)
    requires Grouped(groups, seen) && Counted(groups, seen)
    ensures Counted(Record(groups, code, field, rowNumber), seen + [Errored(code, field)])
  {
    hide GroupPairs, Pairs, CountMatching, SumCounts, CountErrored;
    NotGrouped(groups, code, field);
    SeenOneMore(seen, code, field);
    var n := IndexOf(groups, code, field);
    var more := Record(groups, code, field, rowNumber);
    if n < |groups| {
      SamePairs(groups, n, more);
      SumIncrements(groups, n);
    } else if |groups| < MAX_GROUPS {
      OneMorePair(groups, Group(code, field, rowNumber, 1));
      NeverMatched(seen, code, field);
      forall g | g in more ensures g.count == CountMatching(seen + [Errored(code, field)], g.code, g.field) {
        if g in groups { UngroupedDiffers(groups, g, code, field); }
      }
    } else {
      forall g | g in groups ensures (g.code, g.field) != (code, field) {
        UngroupedDiffers(groups, g, code, field);
      }
    }
  }

  lemma UngroupedDiffers(groups: seq<Group>, g: Group, code: string, field: string)
    requires g in groups && IndexOf(groups, code, field) == |groups|
    ensures (g.code, g.field) != (code, field)
  {
  }

  lemma LastPairIsNew(groups: seq<Group>)
    requires DistinctGroups(groups) && groups != []
    ensures var init, last := groups[..|groups| - 1], groups[|groups| - 1];
            DistinctGroups(init) && (last.code, last.field) !in GroupPairs(init)
  {
    var init, last := groups[..|groups| - 1], groups[|groups| - 1];
    forall i | 0 <= i < |init|
      ensures init[i] == groups[i] && (init[i].code, init[i].field) != (last.code, last.field) { }
  }

  lemma {:induction false} GroupCardinality(groups: seq<Group>)
    requires DistinctGroups(groups)
    ensures |GroupPairs(groups)| == |groups|
  {
    if groups != [] {
      hide GroupPairs, DistinctGroups;
      var init, last := groups[..|groups| - 1], groups[|groups| - 1];
      LastPairIsNew(groups);
      GroupCardinality(init);
      OneMorePair(init, last);
      assert init + [last] == groups;
    }
  }

  lemma SubsetOfSameSize<T>(a: set<T>, b: set<T>)
    requires a <= b && |b| <= |a|
    ensures a == b
  {
    assert |b - a| == |b| - |a|;
    assert b == a + (b - a);
  }

  /** The group counts add up to the errored rows exactly when at most a hundred different errors occurred. */
  lemma GroupsAddUpExactly(groups: seq<Group>, seen: seq<Outcome>)
    requires Grouped(groups, seen) && Counted(groups, seen)
    ensures SumCounts(groups) == CountErrored(seen) <==> |Pairs(seen)| <= MAX_GROUPS
  {
    hide GroupPairs, Pairs;
    GroupCardinality(groups);
    if |groups| == MAX_GROUPS && |Pairs(seen)| <= MAX_GROUPS {
      SubsetOfSameSize(GroupPairs(groups), Pairs(seen));
    }
  }

  // ---- the counters of a file ----------------------------------------------------------------

  class FileCounter {
    const kind: Kind
    const inferred: Option<string>
    var read: nat
    var inserted: nat
    var excluded: nat
    var errored: nat
    var excludedAmount: int
    var errors: seq<Group>
    ghost var seen: seq<Outcome>
    ghost var numbers: seq<nat>

    /** The counters count the outcomes of the rows seen so far, none of which aborted. */
    ghost predicate Valid()
      reads this
    {
      && read == |seen| && inserted == CountInserted(seen) && excluded == CountExcluded(seen)
      && errored == CountErrored(seen)
      && excludedAmount == ExcludedAmount(seen) && Aborted !in seen
      && Grouped(errors, seen) && Counted(errors, seen) && NameFirst(errors, seen, numbers)
    }

    constructor (kind: Kind, inferred: Option<string>)
      ensures Valid() && seen == [] && numbers == [] && this.kind == kind && this.inferred == inferred
    {
      this.kind, this.inferred := kind, inferred;
      read, inserted, excluded, errored, excludedAmount := 0, 0, 0, 0, 0;
      errors, seen, numbers := [], [], [];
    }

    /** The catch block: the row's group counts up, or a new group is recorded while there is room. */
    method RecordError(code: string, field: string, rowNumber: nat)
      modifies this`errors
      ensures errors == Record(old(errors), code, field, rowNumber)
    {
      var n := 0;
      while n < |errors| && !(errors[n].code == code && errors[n].field == field)
        invariant 0 <= n <= |errors| && IndexOf(errors, code, field) == n + IndexOf(errors[n..], code, field)
      {
        assert errors[n..][1..] == errors[n + 1..];
        n := n + 1;
      }
      if n < |errors| {
        errors := errors[n := errors[n].(count := errors[n].count + 1)];
      } else if |errors| < MAX_GROUPS {
        errors := errors + [Group(code, field, rowNumber, 1)];
      }
    }

    /** The try block: cells are resolved one at a time and each may throw; counters are updated on the way. */
    method Attempt(row: Row) returns (thrown: Option<Thrown>)
      modifies this`inserted, this`excluded, this`excludedAmount
      ensures thrown == ThrownBy(Classify(kind, inferred, row))
      ensures thrown.Some? ==>
                inserted == old(inserted) && excluded == old(excluded) && excludedAmount == old(excludedAmount)
      ensures thrown.None? ==>
                if Classify(kind, inferred, row).Inserted?
                then inserted == old(inserted) + 1 && excluded == old(excluded) && excludedAmount == old(excludedAmount)
                else Classify(kind, inferred, row).Excluded?
                     && inserted == old(inserted) && excluded == old(excluded) + 1
                     && excludedAmount == old(excludedAmount) + Classify(kind, inferred, row).amount
    {
      var site := SiteOf(kind, inferred, row);
      if site.UnknownSite? { return Some(RowError("IMPORT_UNKNOWN_MARKETPLACE", row.siteField)); }
      if site.NonAmazon? {
        if kind.Shipment? {
          var quantity := Resolve(row.quantity, "quantity");
          if quantity.Err? { return Some(quantity.error); }
        }
        var amountToExclude;
        if kind.Transaction? {
          amountToExclude := Resolve(row.total, "total");
        } else {
          amountToExclude := Resolve(row.productPrice, "product_price");
        }
        if amountToExclude.Err? { return Some(amountToExclude.error); }
        excludedAmount := excludedAmount + amountToExclude.value;
        excluded := excluded + 1;
        return None;
      }
      var date := Resolve(row.date, "date_time");
      if date.Err? { return Some(date.error); }
      if kind.Transaction? {
        var total := Resolve(row.total, "total");
        if total.Err? { return Some(total.error); }
      }
      var quantity := Resolve(row.quantity, "quantity");
      if quantity.Err? { return Some(quantity.error); }
      for n := 0 to |row.components|
        invariant FirstBad(row.components) == FirstBad(row.components[n..])
        invariant inserted == old(inserted) && excluded == old(excluded) && excludedAmount == old(excludedAmount)
      {
        var amount := Resolve(row.components[n].1, row.components[n].0);
        assert row.components[n..][1..] == row.components[n + 1..];
        if amount.Err? { return Some(amount.error); }
      }
      if !row.written { return Some(OtherError); }
      inserted := inserted + 1;
      return None;
    }

    /** onRow: the row is read, then attempted; the catch counts a row error and lets anything else abort the
        commit. Whatever throws where, each row goes into exactly one of the three counters. */
    method OnRow(row: Row) returns (aborted: bool)
      requires Valid()
      modifies this
      ensures aborted <==> Classify(kind, inferred, row).Aborted?
      ensures !aborted ==> Valid() && seen == old(seen) + [Classify(kind, inferred, row)]
      ensures !aborted ==> numbers == old(numbers) + [row.number]
      ensures !aborted ==> read == inserted + excluded + errored
    {
      hide Classify, Record, NameFirst, Grouped, Counted, CountInserted, CountExcluded, CountErrored, ExcludedAmount;
      read := read + 1;
      ghost var before := seen;
      ghost var outcome := Classify(kind, inferred, row);
      CountersGrow(before, outcome);
      var thrown := Attempt(row);
      if thrown.Some? {
        if thrown.value.OtherError? { return true; }
        var code, field := thrown.value.code, thrown.value.field;
        errored := errored + 1;
        RecordKeepsGrouped(errors, before, code, field, row.number);
        RecordKeepsCounted(errors, before, code, field, row.number);
        RecordKeepsFirst(errors, before, numbers, code, field, row.number);
        RecordError(code, field, row.number);
      } else {
        OtherKeepsGroups(errors, before, outcome);
        OtherKeepsFirst(errors, before, numbers, outcome, row.number);
      }
      seen, numbers := seen + [outcome], numbers + [row.number];
      OutcomesAddUp(seen);
      return false;
    }
  }

  /** rowValidationError: a safe code becomes a row error, anything else passes through. */
  datatype Thrown = RowError(code: string, field: string) | OtherError

  method Resolve(p: Parsed, field: string) returns (r: Result<int, Thrown>)
    ensures r == match p
                 case Good(value) => Ok(value)
                 case Invalid(code) => Err(RowError(code, field))
                 case Broken => Err(OtherError)
  {
    match p
    case Good(value) => return Ok(value);
    case Invalid(code) => return Err(RowError(code, field));
    case Broken => return Err(OtherError);
  }

  function ThrownBy(o: Outcome): Option<Thrown> {
    match o
    case Errored(code, field) => Some(RowError(code, field))
    case Aborted => Some(OtherError)
    case _ => None
  }

  // ---- conservation --------------------------------------------------------------------------

  lemma {:induction false} OutcomesAddUp(outcomes: seq<Outcome>)
    requires Aborted !in outcomes
    ensures |outcomes| == CountInserted(outcomes) + CountExcluded(outcomes) + CountErrored(outcomes)
  {
    if outcomes != [] {
      var init := outcomes[..|outcomes| - 1];
      assert forall o | o in init :: o in outcomes;
      assert outcomes[|outcomes| - 1] in outcomes;
      OutcomesAddUp(init);
    }
  }

  lemma {:induction false} NothingDropped(outcomes: seq<Outcome>)
    ensures CountExcluded(outcomes) + CountErrored(outcomes) > 0 <==>
            exists o | o in outcomes :: o.Excluded? || o.Errored?
  {
    if outcomes != [] {
      var init, last := outcomes[..|outcomes| - 1], outcomes[|outcomes| - 1];
      NothingDropped(init);
      assert outcomes == init + [last];
    }
  }

  datatype FileResult = FileResult(read: nat, inserted: nat, excluded: nat, errored: nat, excludedAmount: int,
                                   errors: seq<Group>)

  /** assertRowConservation; counts cannot be negative here. */
  predicate Conserved(f: FileResult) {
    f.read == f.inserted + f.excluded + f.errored
  }

  /** Copies a file: read = inserted + excluded + errored for any rows, each counter and group counting what it
      says, unless a row fails in a way that is no row error. */
  method CopyFile(kind: Kind, inferred: Option<string>, rows: seq<Row>) returns (r: Option<FileResult>)
    ensures r.None? <==> Aborted in Outcomes(kind, inferred, rows)
    ensures r.Some? ==>
              var outcomes := Outcomes(kind, inferred, rows);
              && r.value.read == |rows| && Conserved(r.value)
              && r.value.inserted == CountInserted(outcomes) && r.value.excluded == CountExcluded(outcomes)
              && r.value.errored == CountErrored(outcomes) && r.value.excludedAmount == ExcludedAmount(outcomes)
              && (SumCounts(r.value.errors) == r.value.errored <==> |Pairs(outcomes)| <= MAX_GROUPS)
              && (forall g | g in r.value.errors :: g.count == CountMatching(outcomes, g.code, g.field))
              && (forall g | g in r.value.errors ::
                    NamesFirst(g, outcomes, seq(|rows|, i requires 0 <= i < |rows| => rows[i].number)))
  {
    hide Classify, CountInserted, CountExcluded, CountErrored, CountMatching, Pairs;
    var counter := new FileCounter(kind, inferred);
    for n := 0 to |rows|
      invariant counter.Valid() && counter.seen == Outcomes(kind, inferred, rows)[..n]
      invariant |counter.numbers| == n && forall i | 0 <= i < n :: counter.numbers[i] == rows[i].number
    {
      var aborted := counter.OnRow(rows[n]);
      assert Outcomes(kind, inferred, rows)[n] == Classify(kind, inferred, rows[n]);
      if aborted { return None; }
    }
    assert counter.seen == Outcomes(kind, inferred, rows);
    assert counter.numbers == seq(|rows|, i requires 0 <= i < |rows| => rows[i].number);
    OutcomesAddUp(counter.seen);
    GroupsAddUpExactly(counter.errors, counter.seen);
    return Some(FileResult(counter.read, counter.inserted, counter.excluded, counter.errored, counter.excludedAmount,
                           counter.errors));
  }

  function TotalDropped(files: seq<FileResult>): nat {
    if files == [] then 0
    else TotalDropped(files[..|files| - 1]) + files[|files| - 1].excluded + files[|files| - 1].errored
  }

  /** The status a commit ends with. */
  function FinalStatus(files: seq<FileResult>): string {
    if TotalDropped(files) > 0 then "COMMITTED_WITH_EXCLUSIONS" else "COMMITTED"
  }

  predicate SomeDropped(outcomes: seq<seq<Outcome>>) {
    exists i, o | 0 <= i < |outcomes| && o in outcomes[i] :: o.Excluded? || o.Errored?
  }

  lemma {:induction false} DroppedExactly(files: seq<FileResult>, outcomes: seq<seq<Outcome>>)
    requires |files| == |outcomes|
    requires forall i | 0 <= i < |files| ::
               files[i].excluded == CountExcluded(outcomes[i]) && files[i].errored == CountErrored(outcomes[i])
    ensures TotalDropped(files) > 0 <==> SomeDropped(outcomes)
  {
    hide CountExcluded, CountErrored;
    if files != [] {
      var last := |files| - 1;
      assert forall i | 0 <= i < last :: files[..last][i] == files[i] && outcomes[..last][i] == outcomes[i];
      DroppedExactly(files[..last], outcomes[..last]);
      NothingDropped(outcomes[last]);
    }
  }

  /** A batch ends COMMITTED_WITH_EXCLUSIONS exactly when some row of some file was excluded or errored, and
      COMMITTED otherwise. */
  lemma ExclusionsExactly(files: seq<FileResult>, outcomes: seq<seq<Outcome>>)
    requires |files| == |outcomes|
    requires forall i | 0 <= i < |files| ::
               files[i].excluded == CountExcluded(outcomes[i]) && files[i].errored == CountErrored(outcomes[i])
    ensures FinalStatus(files) == "COMMITTED_WITH_EXCLUSIONS" <==> SomeDropped(outcomes)
    ensures FinalStatus(files) == "COMMITTED" <==> !SomeDropped(outcomes)
  {
    hide CountExcluded, CountErrored, SomeDropped;
    DroppedExactly(files, outcomes);
    assert |"COMMITTED_WITH_EXCLUSIONS"| != |"COMMITTED"|;
  }

  predicate Foreign(row: Row) {
    !row.blankSite && row.site.NonAmazon?
  }

  /** The amount a row outside Amazon is excluded with, if its cells resolve. */
  function ForeignAmount(kind: Kind, row: Row): Option<int> {
    if kind.Transaction? then if row.total.Good? then Some(row.total.value) else None
    else if row.quantity.Good? && row.productPrice.Good? then Some(row.productPrice.value) else None
  }

  function CountForeign(kind: Kind, rows: seq<Row>, resolved: bool): nat {
    if rows == [] then 0
    else
      var last := rows[|rows| - 1];
      CountForeign(kind, rows[..|rows| - 1], resolved)
      + (if Foreign(last) && ForeignAmount(kind, last).Some? == resolved then 1 else 0)
  }

  function SumForeign(kind: Kind, rows: seq<Row>): int {
    if rows == [] then 0
    else
      var last := rows[|rows| - 1];
      SumForeign(kind, rows[..|rows| - 1])
      + (if Foreign(last) && ForeignAmount(kind, last).Some? then ForeignAmount(kind, last).value else 0)
  }

  /** Over a whole file: excluded are exactly the rows outside Amazon whose amount resolves, with exactly their
      amounts; every other such row is among the errored ones, and never counted twice. */
  lemma {:induction false} ForeignRowsCounted(kind: Kind, inferred: Option<string>, rows: seq<Row>)
    requires Aborted !in Outcomes(kind, inferred, rows)
    ensures var outcomes := Outcomes(kind, inferred, rows);
            && CountExcluded(outcomes) == CountForeign(kind, rows, true)
            && ExcludedAmount(outcomes) == SumForeign(kind, rows)
            && CountErrored(outcomes) >= CountForeign(kind, rows, false)
  {
    if rows != [] {
      var init, last := rows[..|rows| - 1], rows[|rows| - 1];
      var outcomes := Outcomes(kind, inferred, rows);
      assert outcomes[..|init|] == Outcomes(kind, inferred, init);
      assert outcomes[|init|] == Classify(kind, inferred, last) && outcomes[|init|] in outcomes;
      forall o | o in Outcomes(kind, inferred, init) ensures o in outcomes {
        assert o in outcomes[..|init|];
      }
      ForeignRowsCounted(kind, inferred, init);
      AmazonIsNotExcluded(kind, inferred, last);
    }
  }

  lemma AmazonIsNotExcluded(kind: Kind, inferred: Option<string>, row: Row)
    ensures Classify(kind, inferred, row).Excluded? ==> Foreign(row)
  {
    if FirstBad(row.components).Some? { BadIsNotExcluded(row.components); }
  }

  lemma {:induction false} BadIsNotExcluded(components: seq<(string, Parsed)>)
    requires FirstBad(components).Some?
    ensures FirstBad(components).value.Errored? || FirstBad(components).value.Aborted?
  {
    if components[0].1.Good? {
      BadIsNotExcluded(components[1..]);
    }
  }

  // ---- the marketplace of blank cells --------------------------------------------------------

  datatype Observation = Blank | Seen(site: Site)

  class SingleSiteMarketplaceInference {
    var profile: Option<string>
    var mixed: bool
    ghost var observed: seq<Observation>

    /** The profile is the first recognised site; mixed says whether another one was seen. */
    ghost predicate Valid()
      reads this
    {
      && (profile.None? ==> !mixed && forall o | o in observed :: !(o.Seen? && o.site.Amazon?))
      && (profile.Some? ==> Seen(Amazon(profile.value)) in observed)
      && (profile.Some? ==> (mixed <==>
          exists o | o in observed :: o.Seen? && o.site.Amazon? && o.site.code != profile.value))
    }

    constructor ()
      ensures Valid() && observed == []
    {
      profile, mixed, observed := None, false, [];
    }

    method Observe(o: Observation)
      requires Valid()
      modifies this
      ensures Valid() && observed == old(observed) + [o]
    {
      observed := observed + [o];
      if o.Blank? || !o.site.Amazon? { return; }
      if profile.Some? && profile.value != o.site.code {
        mixed := true;
        return;
      }
      profile := Some(o.site.code);
    }

    /** A site is inferred exactly when it is the only recognised Amazon site of the file. */
    method Resolve() returns (r: Option<string>)
      requires Valid()
      ensures forall code: string :: r == Some(code) <==>
                Seen(Amazon(code)) in observed
                && forall o | o in observed && o.Seen? && o.site.Amazon? :: o.site.code == code
    {
      r := if mixed then None else profile;
    }
  }
}
