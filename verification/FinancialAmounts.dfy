/** What the results of a run say about the stored amounts: which of them are emitted, under which component
    and sign, and how far the rounded totals are from the exact products. */
module FinancialAmounts {
  import opened Prelude
  import opened Decimals
  import opened Financial
  import Fee = FeeClassification

  // ---- columns -------------------------------------------------------------------------------

  predicate MerchantOrder(a: Amounts) {
    a.TransactionOf? && Fee.CanonicalType(a.fees.txType) == "ORDER" && a.mode.Merchant?
  }

  predicate IsRefund(a: Amounts) {
    a.TransactionOf? && Fee.CanonicalType(a.fees.txType) == "REFUND"
  }

  predicate ChargesAdvertising(fees: Fee.FeeFact) {
    Fee.CanonicalDescription(fees.description) == "COST_OF_ADVERTISING"
  }

  /** The type the column "other" is judged by. */
  function JudgedType(fees: Fee.FeeFact): string {
    Fee.CanonicalType(Fee.CanonicalType(fees.txType))
  }

  /** The amount stored in a column, if the column counts for this fact. */
  function Stored(a: Amounts, column: Column): Option<int> {
    match column
    case ShipmentField(n) => if a.ShipmentOf? && n < 8 then Some(a.income[n]) else None
    case RefundField(n) => if n < 9 && (MerchantOrder(a) || IsRefund(a)) then Some(a.refunds[n]) else None
    case WithheldTaxColumn => if a.TransactionOf? then Some(a.withheldTax) else None
    case FeeColumn(SellingFees) => if a.TransactionOf? then Some(a.fees.selling) else None
    case FeeColumn(FbaFees) => if a.TransactionOf? then Some(a.fees.fba) else None
    case FeeColumn(OtherTransactionFees) => if a.TransactionOf? then Some(a.fees.otherFees) else None
    case FeeColumn(Other) =>
      if a.TransactionOf? && JudgedType(a.fees) != "TRANSFER" && JudgedType(a.fees) != "DEBT" then Some(a.fees.other)
      else None
  }

  /** The component such a column is counted under. */
  function Under(a: Amounts, column: Column): Component {
    match column
    case ShipmentField(_) => Income
    case RefundField(_) => if MerchantOrder(a) then Income else Refund
    case WithheldTaxColumn => WithheldTax
    case FeeColumn(SellingFees) => PlatformFee
    case FeeColumn(FbaFees) => FbaFulfillmentFee
    case FeeColumn(OtherTransactionFees) =>
      if a.TransactionOf? && ChargesAdvertising(a.fees) then AdvertisingFee else OtherDeduction
    case FeeColumn(Other) =>
      if a.TransactionOf? && JudgedType(a.fees) == "FBA_INVENTORY_FEE" then FbaStorageFee else OtherDeduction
  }

  /** Income keeps its sign, everything else is a cost and changes it. */
  function Sign(component: Component): int {
    if component.Income? then 1 else -1
  }

  /** A result is the stored amount of its column, under the component of that column, and its amount in CNY is
      the product with the rate, rounded to the nearest unit. */
  predicate Tells(r: FactResult, fact: Fact, rate: int) {
    && r.fact == fact.id && r.original != 0 && Stored(fact.amounts, r.column) == Some(r.original)
    && r.component == Under(fact.amounts, r.column)
    && WithinHalf(r.cny * UNIT - Sign(r.component) * r.original * rate, UNIT)
  }

  predicate CellFits(cell: Cell, a: Amounts) {
    Stored(a, cell.column) == Some(cell.amount) && cell.component == Under(a, cell.column)
    && (cell.cost <==> !cell.component.Income?)
  }

  predicate DifferentColumns(cells: seq<Cell>) {
    forall i, j | 0 <= i < j < |cells| :: cells[i].column != cells[j].column
  }

  predicate HasColumn(cells: seq<Cell>, column: Column) {
    exists i | 0 <= i < |cells| :: cells[i].column == column
  }

  ghost predicate CellsFit(cells: seq<Cell>, a: Amounts) {
    DifferentColumns(cells) && forall i | 0 <= i < |cells| :: CellFits(cells[i], a)
  }

  // ---- the cells -----------------------------------------------------------------------------

  lemma FeeRowsFit(fees: Fee.FeeFact, column: Fee.Column)
    ensures var category := Fee.ClassifyFeeCell(column, Fee.CanonicalType(fees.txType), fees.description);
            forall a: Amounts | a.TransactionOf? && a.fees == fees ::
              if category.ExcludedTransferDebt? then Stored(a, FeeColumn(column)) == None
              else Stored(a, FeeColumn(column)) == Some(fees.Amount(column))
                   && FeeComponent(category) == Under(a, FeeColumn(column))
  {
    hide Fee.CanonicalType, Fee.CanonicalDescription;
  }

  lemma {:induction false} FeeCellsFit(a: Amounts, columns: seq<Fee.Column>)
    requires a.TransactionOf? && forall i, j | 0 <= i < j < |columns| :: columns[i] != columns[j]
    ensures var cells := RowCells(Fee.ResultRows(a.fees, columns));
            && CellsFit(cells, a)
            && (forall i | 0 <= i < |cells| :: cells[i].column.FeeColumn? && cells[i].column.fee in columns)
            && (forall c | c in columns && Stored(a, FeeColumn(c)).Some? && Stored(a, FeeColumn(c)).value != 0 ::
                  HasColumn(cells, FeeColumn(c)))
  {
    hide Fee.ClassifyFeeCell, Fee.CanonicalType, Stored, Under, FeeComponent;
    if columns != [] {
      var head, rest := columns[0], columns[1..];
      FeeCellsFit(a, rest);
      FeeRowsFit(a.fees, head);
      var category := Fee.ClassifyFeeCell(head, Fee.CanonicalType(a.fees.txType), a.fees.description);
      var tail := Fee.ResultRows(a.fees, rest);
      var cells, more := RowCells(Fee.ResultRows(a.fees, columns)), RowCells(tail);
      assert columns == [head] + rest;
      if category.ExcludedTransferDebt? || a.fees.Amount(head) == 0 {
        assert cells == more;
      } else {
        var row := Fee.FeeRow(head, category, a.fees.Amount(head));
        assert ([row] + tail)[1..] == tail;
        var cell := Cell(FeeColumn(head), FeeComponent(category), a.fees.Amount(head), true);
        assert cells == [cell] + more;
        assert CellFits(cell, a) by { CostsFit(a, head); }
        assert forall i | 0 < i < |cells| :: cells[i] == more[i - 1];
        assert forall i | 0 <= i < |more| :: more[i] == cells[i + 1];
        assert cells[0].column == FeeColumn(head);
      }
    }
  }

  lemma CostsFit(a: Amounts, column: Fee.Column)
    ensures !Under(a, FeeColumn(column)).Income?
  {
  }

  lemma FeeColumnsDiffer()
    ensures forall i, j | 0 <= i < j < |Fee.COLUMNS| :: Fee.COLUMNS[i] != Fee.COLUMNS[j]
    ensures forall c: Fee.Column :: c in Fee.COLUMNS
  {
    assert Fee.COLUMNS == [Fee.SellingFees, Fee.FbaFees, Fee.OtherTransactionFees, Fee.Other];
    assert Fee.COLUMNS[0] == Fee.SellingFees && Fee.COLUMNS[1] == Fee.FbaFees;
    assert Fee.COLUMNS[2] == Fee.OtherTransactionFees && Fee.COLUMNS[3] == Fee.Other;
    forall c: Fee.Column ensures c in Fee.COLUMNS {
      match c
      case SellingFees => assert Fee.COLUMNS[0] == c;
      case FbaFees => assert Fee.COLUMNS[1] == c;
      case OtherTransactionFees => assert Fee.COLUMNS[2] == c;
      case Other => assert Fee.COLUMNS[3] == c;
    }
  }

  lemma RefundCellsFit(a: Amounts, component: Component, cost: bool)
    requires a.TransactionOf? && (cost <==> !component.Income?)
    requires if component.Income? then MerchantOrder(a) else component.Refund? && IsRefund(a)
    ensures CellsFit(RefundCells(a.refunds, component, cost), a)
    ensures forall n | 0 <= n < 9 :: HasColumn(RefundCells(a.refunds, component, cost), RefundField(n))
  {
    hide Fee.CanonicalType;
    KindsDiffer();
    var cells := RefundCells(a.refunds, component, cost);
    assert forall n | 0 <= n < 9 :: cells[n].column == RefundField(n);
  }

  lemma KindsDiffer()
    ensures "ORDER" != "REFUND"
  {
    assert |"ORDER"| != |"REFUND"|;
  }

  lemma FitTogether(a: Amounts, left: seq<Cell>, right: seq<Cell>)
    requires CellsFit(left, a) && CellsFit(right, a)
    requires forall i, j | 0 <= i < |left| && 0 <= j < |right| :: left[i].column != right[j].column
    ensures CellsFit(left + right, a)
    ensures forall c :: HasColumn(left + right, c) <==> HasColumn(left, c) || HasColumn(right, c)
  {
    hide CellFits;
    var all := left + right;
    assert forall i | 0 <= i < |all| :: all[i] == if i < |left| then left[i] else right[i - |left|];
    forall c ensures HasColumn(all, c) <==> HasColumn(left, c) || HasColumn(right, c) {
      if HasColumn(left, c) {
        var i :| 0 <= i < |left| && left[i].column == c;
        assert all[i].column == c;
      }
      if HasColumn(right, c) {
        var i :| 0 <= i < |right| && right[i].column == c;
        assert all[|left| + i].column == c;
      }
    }
  }

  /** The fields and the tax of a transaction, before its fees. */
  function FieldCells(a: Amounts): seq<Cell>
    requires a.TransactionOf?
  {
    (if MerchantOrder(a) then RefundCells(a.refunds, Income, false) else [])
    + (if IsRefund(a) then RefundCells(a.refunds, Refund, true) else [])
    + [Cell(WithheldTaxColumn, WithheldTax, a.withheldTax, true)]
  }

  lemma FieldCellsFit(a: Amounts)
    requires a.TransactionOf?
    ensures CellsFit(FieldCells(a), a) && forall i | 0 <= i < |FieldCells(a)| :: !FieldCells(a)[i].column.FeeColumn?
    ensures HasColumn(FieldCells(a), WithheldTaxColumn)
    ensures forall n | 0 <= n < 9 && Stored(a, RefundField(n)).Some? :: HasColumn(FieldCells(a), RefundField(n))
  {
    hide Fee.CanonicalType;
    KindsDiffer();
    var tax := [Cell(WithheldTaxColumn, WithheldTax, a.withheldTax, true)];
    assert tax[0].column == WithheldTaxColumn;
    if MerchantOrder(a) {
      RefundCellsFit(a, Income, false);
      FitTogether(a, RefundCells(a.refunds, Income, false), tax);
      assert FieldCells(a) == RefundCells(a.refunds, Income, false) + tax;
    } else if IsRefund(a) {
      RefundCellsFit(a, Refund, true);
      FitTogether(a, RefundCells(a.refunds, Refund, true), tax);
      assert FieldCells(a) == RefundCells(a.refunds, Refund, true) + tax;
    } else {
      assert FieldCells(a) == tax;
    }
  }

  lemma AllCellsFit(a: Amounts)
    ensures CellsFit(CellsOf(a), a)
    ensures forall c | Stored(a, c).Some? && Stored(a, c).value != 0 :: HasColumn(CellsOf(a), c)
  {
    hide Fee.CanonicalType, RefundCells, RowCells, CellFits;
    if a.ShipmentOf? {
      ShipmentCellsFit(a);
    } else {
      FieldCellsFit(a);
      FeeColumnsDiffer();
      FeeCellsFit(a, Fee.COLUMNS);
      FitTogether(a, FieldCells(a), FeeCells(a.fees));
      assert CellsOf(a) == FieldCells(a) + FeeCells(a.fees);
    }
  }

  lemma ShipmentCellsFit(a: Amounts)
    requires a.ShipmentOf?
    ensures CellsFit(CellsOf(a), a)
    ensures forall c | Stored(a, c).Some? :: HasColumn(CellsOf(a), c)
  {
    forall c | Stored(a, c).Some? ensures HasColumn(CellsOf(a), c) {
      assert CellsOf(a)[c.n].column == c;
    }
  }

  // ---- the results ---------------------------------------------------------------------------

  lemma ProductIsNearest(amount: int, rate: int, cost: bool)
    ensures var cny := Round(Exact(amount, rate, cost));
            WithinHalf(cny * UNIT - (if cost then -1 else 1) * amount * rate, UNIT)
  {
    hide Round, WithinHalf;
    var signed := (if cost then -1 else 1) * amount * rate;
    ShareTimesUnit(amount, rate);
    var product := amount as real * (rate as real / UNIT as real);
    assert signed == if cost then -(amount * rate) else amount * rate;
    assert -product * UNIT as real == -(product * UNIT as real);
    RoundOfFraction(Exact(amount, rate, cost), signed, UNIT);
  }

  lemma CellTells(fact: Fact, cell: Cell, rate: int)
    requires CellFits(cell, fact.amounts)
    ensures MakeResult(fact.id, cell, rate).None? <==> cell.amount == 0
    ensures cell.amount != 0 ==>
              var r := MakeResult(fact.id, cell, rate).value;
              Tells(r, fact, rate) && r.column == cell.column
  {
    hide Round, Exact, Stored, Under;
    ProductIsNearest(cell.amount, rate, cell.cost);
  }

  predicate ColumnsDiffer(results: seq<FactResult>) {
    forall i, j | 0 <= i < j < |results| :: results[i].column != results[j].column
  }

  predicate Emits(results: seq<FactResult>, column: Column) {
    exists i | 0 <= i < |results| :: results[i].column == column
  }

  lemma {:induction false} CellsTell(fact: Fact, cells: seq<Cell>, rate: int)
    requires CellsFit(cells, fact.amounts)
    ensures var results := ResultsOf(fact.id, cells, rate);
            && ColumnsDiffer(results) && (forall i | 0 <= i < |results| :: Tells(results[i], fact, rate))
            && (forall c :: Emits(results, c) <==>
                  exists i | 0 <= i < |cells| :: cells[i].column == c && cells[i].amount != 0)
  {
    hide MakeResult, Tells, CellFits;
    if cells != [] {
      var rest := cells[1..];
      assert forall i | 0 <= i < |rest| :: rest[i] == cells[i + 1];
      CellsTell(fact, rest, rate);
      CellTells(fact, cells[0], rate);
      var others, results := ResultsOf(fact.id, rest, rate), ResultsOf(fact.id, cells, rate);
      var first := MakeResult(fact.id, cells[0], rate);
      if first.None? {
        assert results == others;
      } else {
        assert results == [first.value] + others;
        assert forall i | 0 < i < |results| :: results[i] == others[i - 1];
        FirstIsNew(rest, others, cells[0].column);
      }
      forall c
        ensures Emits(results, c) <==> exists i | 0 <= i < |cells| :: cells[i].column == c && cells[i].amount != 0
      {
        EmitsOneMore(cells, results, others, c);
      }
    }
  }

  lemma FirstIsNew(rest: seq<Cell>, others: seq<FactResult>, column: Column)
    requires forall c :: Emits(others, c) ==> exists i | 0 <= i < |rest| :: rest[i].column == c && rest[i].amount != 0
    requires forall i | 0 <= i < |rest| :: rest[i].column != column
    ensures forall i | 0 <= i < |others| :: others[i].column != column
  {
    forall i | 0 <= i < |others| ensures others[i].column != column {
      assert Emits(others, others[i].column);
    }
  }

  lemma EmitsOneMore(cells: seq<Cell>, results: seq<FactResult>, others: seq<FactResult>, c: Column)
    requires cells != []
    requires Emits(others, c) <==>
             exists i | 0 <= i < |cells[1..]| :: cells[1..][i].column == c && cells[1..][i].amount != 0
    requires if cells[0].amount == 0 then results == others
             else |results| > 0 && results[0].column == cells[0].column && results[1..] == others
    ensures Emits(results, c) <==> exists i | 0 <= i < |cells| :: cells[i].column == c && cells[i].amount != 0
  {
    if i :| 0 <= i < |cells[1..]| && cells[1..][i].column == c && cells[1..][i].amount != 0 {
      assert cells[i + 1].column == c && cells[i + 1].amount != 0;
    }
    if i :| 0 <= i < |cells| && cells[i].column == c && cells[i].amount != 0 {
      if i > 0 { assert cells[1..][i - 1].column == c; }
    }
    if cells[0].amount != 0 {
      assert Emits(results, c) <==> results[0].column == c || Emits(others, c) by {
        if i :| 0 <= i < |others| && others[i].column == c { assert results[i + 1].column == c; }
        if i :| 0 <= i < |results| && results[i].column == c { if i > 0 { assert others[i - 1].column == c; } }
      }
    }
  }

  /** The results of a fact are its stored amounts that are not zero, each once, under the component its column
      is counted under, converted at the fact's rate: income with its sign, costs with the opposite one. */
  lemma ResultsTellTheAmounts(fact: Fact, fx: Fx)
    ensures var results := FactResults(fact, fx);
            && ColumnsDiffer(results) && (forall i | 0 <= i < |results| :: Tells(results[i], fact, fx.rate))
            && (forall c :: Emits(results, c) <==> Stored(fact.amounts, c).Some? && Stored(fact.amounts, c).value != 0)
  {
    hide ResultsOf, CellsOf, Stored, Under;
    AllCellsFit(fact.amounts);
    CellsTell(fact, CellsOf(fact.amounts), fx.rate);
    forall c
      ensures Emits(FactResults(fact, fx), c) <==>
              Stored(fact.amounts, c).Some? && Stored(fact.amounts, c).value != 0
    {
      if Stored(fact.amounts, c).Some? && Stored(fact.amounts, c).value != 0 {
        assert HasColumn(CellsOf(fact.amounts), c);
      }
    }
  }

  // ---- totals --------------------------------------------------------------------------------

  /** The sum of the stored amounts of results under a component. */
  function Originals(results: seq<FactResult>, component: Component): int {
    if results == [] then 0
    else (if results[0].component == component then results[0].original else 0) + Originals(results[1..], component)
  }

  lemma OneMoreTerm(sign: int, cny: int, sum: int, original: int, rest: int, rate: int, n: nat)
    requires WithinHalf(cny * UNIT - sign * original * rate, UNIT)
    requires WithinHalf(sum * UNIT - sign * rest * rate, UNIT * n)
    ensures WithinHalf((cny + sum) * UNIT - sign * (original + rest) * rate, UNIT * (1 + n))
  {
    var a, b := sign * original, sign * rest;
    assert sign * (original + rest) == a + b;
    assert (a + b) * rate == a * rate + b * rate;
  }

  lemma {:induction false} TotalsTell(results: seq<FactResult>, fact: Fact, rate: int, component: Component)
    requires forall i | 0 <= i < |results| :: Tells(results[i], fact, rate)
    ensures WithinHalf(SumOf(results, component) * UNIT - Sign(component) * Originals(results, component) * rate,
                       UNIT * Emitted(results, component))
  {
    hide Stored, Under, WithinHalf, Sign;
    if results == [] {
      NothingSummed(component, rate);
    } else {
      var first, rest := results[0], results[1..];
      TotalsTell(rest, fact, rate, component);
      assert Tells(first, fact, rate);
      if first.component == component {
        OneMoreTerm(Sign(component), first.cny, SumOf(rest, component), first.original, Originals(rest, component),
                    rate, Emitted(rest, component));
      }
    }
  }

  lemma NothingSummed(component: Component, rate: int)
    ensures WithinHalf(0 * UNIT - Sign(component) * 0 * rate, UNIT * 0)
  {
    assert Sign(component) * 0 == 0 && 0 * rate == 0;
  }

  /** Per fact: each total is off by at most half a unit for each result that went into it. */
  lemma RoundingError(fact: Fact, fx: Fx, component: Component)
    ensures var results := FactResults(fact, fx);
            WithinHalf(SumOf(results, component) * UNIT - Sign(component) * Originals(results, component) * fx.rate,
                       UNIT * Emitted(results, component))
  {
    hide FactResults;
    ResultsTellTheAmounts(fact, fx);
    TotalsTell(FactResults(fact, fx), fact, fx.rate, component);
  }

  /** What the facts of a slice are worth for a component, in units of 1e-16. */
  function RunWorth(facts: seq<Fact>, convert: Fact -> Option<Fx>, slice: nat, component: Component): int {
    if facts == [] then 0
    else
      var last := facts[|facts| - 1];
      RunWorth(facts[..|facts| - 1], convert, slice, component)
      + (if last.slice == slice && convert(last).Some?
         then Sign(component) * Originals(FactResults(last, convert(last).value), component) * convert(last).value.rate
         else 0)
  }

  /** Over a whole run each total of a slice is off by at most half a unit for each result that went into it. */
  lemma {:induction false} SliceRoundingError(facts: seq<Fact>, convert: Fact -> Option<Fx>, slices: set<nat>,
                                              slice: nat, component: Component)
    requires RunLines(facts, convert, slices).Ok?
    ensures var results := OfSlice(RunLines(facts, convert, slices).value, slice);
            WithinHalf(SumOf(results, component) * UNIT - RunWorth(facts, convert, slice, component),
                       UNIT * Emitted(results, component))
  {
    hide FactResults, CheckConversion, Originals;
    if facts != [] {
      var init, last := facts[..|facts| - 1], facts[|facts| - 1];
      SliceRoundingError(init, convert, slices, slice, component);
      var before := RunLines(init, convert, slices).value;
      var results := FactResults(last, convert(last).value);
      OfSliceAppends(before, Lines(last.slice, results), slice);
      OfSliceOfLines(last.slice, results, slice);
      var more := if last.slice == slice then results else [];
      SumAppends(OfSlice(before, slice), more, component);
      EmittedAppends(OfSlice(before, slice), more, component);
      RoundingError(last, convert(last).value, component);
    }
  }

  // ---- a run ---------------------------------------------------------------------------------

  /** A fact the run can process. */
  predicate Processable(fact: Fact, fx: Option<Fx>, slices: set<nat>) {
    && fx.Some? && fact.slice in slices
    && fx.value.requested == fact.fxDay && fx.value.hit >= fact.fxDay && fx.value.fallback <= 10 && fx.value.rate >= 0
  }

  /** The error a fact stops the run with. */
  predicate StopsWith(fact: Fact, fx: Option<Fx>, slices: set<nat>, error: Error) {
    match error
    case NoConversion(id) => id == fact.id && fx.None?
    case SliceNotSelected(slice) => slice == fact.slice && fx.Some? && slice !in slices
    case DateMismatch(id) => id == fact.id && fx.Some? && fact.slice in slices && fx.value.requested != fact.fxDay
    case InvalidHit(id) => id == fact.id && fx.Some? && fact.slice in slices && fx.value.hit < fact.fxDay
    case InvalidFallback(id) => id == fact.id && fx.Some? && fact.slice in slices && fx.value.fallback > 10
    case InvalidRate(id) => id == fact.id && fx.Some? && fact.slice in slices && fx.value.rate < 0
  }

  predicate FailsAt(facts: seq<Fact>, convert: Fact -> Option<Fx>, slices: set<nat>, n: nat, error: Error) {
    n < |facts| && StopsWith(facts[n], convert(facts[n]), slices, error)
    && forall i | 0 <= i < n :: Processable(facts[i], convert(facts[i]), slices)
  }

  /** The results of the facts of one slice, fact by fact. */
  function ResultsOfSlice(facts: seq<Fact>, convert: Fact -> Option<Fx>, slice: nat): seq<FactResult> {
    if facts == [] then []
    else
      var last := facts[|facts| - 1];
      ResultsOfSlice(facts[..|facts| - 1], convert, slice)
      + (if last.slice == slice && convert(last).Some? then FactResults(last, convert(last).value) else [])
  }

  /** A run succeeds exactly when every fact can be processed, and each slice then holds the results of its own
      facts, in order; otherwise the first fact that cannot be processed says why. */
  lemma {:induction false} RunIs(facts: seq<Fact>, convert: Fact -> Option<Fx>, slices: set<nat>, slice: nat)
    ensures RunLines(facts, convert, slices).Ok? <==>
            forall i | 0 <= i < |facts| :: Processable(facts[i], convert(facts[i]), slices)
    ensures RunLines(facts, convert, slices).Ok? ==>
            OfSlice(RunLines(facts, convert, slices).value, slice) == ResultsOfSlice(facts, convert, slice)
    ensures RunLines(facts, convert, slices).Err? ==>
            exists n: nat :: FailsAt(facts, convert, slices, n, RunLines(facts, convert, slices).error)
  {
    hide FactResults;
    if facts != [] {
      var init, last := facts[..|facts| - 1], facts[|facts| - 1];
      RunIs(init, convert, slices, slice);
      assert forall i | 0 <= i < |init| :: init[i] == facts[i];
      if RunLines(facts, convert, slices).Ok? {
        var before := RunLines(init, convert, slices).value;
        var results := FactResults(last, convert(last).value);
        OfSliceAppends(before, Lines(last.slice, results), slice);
        OfSliceOfLines(last.slice, results, slice);
      } else if RunLines(init, convert, slices).Err? {
        var error := RunLines(facts, convert, slices).error;
        var n: nat :| FailsAt(init, convert, slices, n, error);
        assert FailsAt(facts, convert, slices, n, error);
      } else {
        assert FailsAt(facts, convert, slices, |init|, RunLines(facts, convert, slices).error);
      }
    }
  }
}
