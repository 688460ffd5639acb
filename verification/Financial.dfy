/** FinancialAccumulator and the paged loops of a calculation run: which amounts become results, what they
    are worth in CNY, and what the slices add up to. */
module Financial {
  import opened Prelude
  import opened Decimals
  import Fee = FeeClassification
  import Conversion = FxConversion

  datatype Component =
    | Income | Refund | WithheldTax | PlatformFee | FbaFulfillmentFee | AdvertisingFee | FbaStorageFee | OtherDeduction

  datatype Column = ShipmentField(n: nat) | RefundField(n: nat) | WithheldTaxColumn | FeeColumn(fee: Fee.Column)

  datatype Mode = Amazon | Merchant | BlankMode

  /** The amounts of SHIPMENT_INCOME_FIELDS. */
  type ShipmentAmounts = s: seq<int> | |s| == 8 witness [0, 0, 0, 0, 0, 0, 0, 0]

  /** The amounts of REFUND_FIELDS. */
  type RefundAmounts = s: seq<int> | |s| == 9 witness [0, 0, 0, 0, 0, 0, 0, 0, 0]

  datatype Amounts =
    | ShipmentOf(income: ShipmentAmounts)
    | TransactionOf(mode: Mode, refunds: RefundAmounts, withheldTax: int, fees: Fee.FeeFact)

  /** A fact under its selected run slice; database ids start at one. */
  datatype Fact = Fact(id: nat, slice: nat, fxDay: int, amounts: Amounts)

  /** FactFxConversion: the rate in units of 1e-8. */
  datatype Fx = Fx(requested: int, hit: int, fallback: nat, rate: int)

  datatype FactResult = FactResult(fact: nat, column: Column, component: Component, original: int, cny: int)

  // ---- one fact ------------------------------------------------------------------------------

  datatype Error = DateMismatch(fact: nat) | InvalidHit(fact: nat) | InvalidFallback(fact: nat) | InvalidRate(fact: nat)
                 | NoConversion(fact: nat) | SliceNotSelected(slice: nat)

  /** assertConversion; isPositive also accepts zero. */
  function CheckConversion(fact: Fact, fx: Fx): Option<Error> {
    if fx.requested != fact.fxDay then Some(DateMismatch(fact.id))
    else if fx.hit < fx.requested then Some(InvalidHit(fact.id))
    else if fx.fallback > 10 then Some(InvalidFallback(fact.id))
    else if fx.rate < 0 then Some(InvalidRate(fact.id))
    else None
  }

  /** What a run passes on of a successful conversion into CNY. */
  function FxOf(book: Conversion.Book, day: int, currency: string): Option<Fx> {
    match Conversion.Convert(book, Some(day), currency, "CNY", Conversion.MAXIMUM_DAYS)
    case Ok(Converted(hit, fallback, rate, _, _)) => Some(Fx(day, hit, fallback, rate))
    case _ => None
  }

  /** No conversion a run obtains is refused by the accumulator. */
  lemma ConversionsPassTheirAssertions(book: Conversion.Book, fact: Fact, currency: string)
    requires FxOf(book, fact.fxDay, currency).Some?
    ensures CheckConversion(fact, FxOf(book, fact.fxDay, currency).value).None?
  {
    hide Round, Conversion.Locate, Conversion.IsCurrency;
    var c := Conversion.Convert(book, Some(fact.fxDay), currency, "CNY", Conversion.MAXIMUM_DAYS).value;
    Conversion.HitDayExactly(book, fact.fxDay, currency, "CNY", Conversion.MAXIMUM_DAYS);
    if currency != "CNY" {
      Conversion.RateIsNotNegative(book, c.hit, c.fallback, currency, "CNY");
    }
  }

  /** What the amount is worth before it is rounded. */
  function Exact(amount: int, rate: int, cost: bool): real {
    var cny := amount as real * (rate as real / UNIT as real);
    if cost then -cny else cny
  }

  /** A cell that may become a result. */
  datatype Cell = Cell(column: Column, component: Component, amount: int, cost: bool)

  function MakeResult(fact: nat, cell: Cell, rate: int): Option<FactResult> {
    if cell.amount == 0 then None
    else Some(FactResult(fact, cell.column, cell.component, cell.amount, Round(Exact(cell.amount, rate, cell.cost))))
  }

  function ResultsOf(fact: nat, cells: seq<Cell>, rate: int): seq<FactResult> {
    if cells == [] then []
    else
      var first := MakeResult(fact, cells[0], rate);
      (if first.Some? then [first.value] else []) + ResultsOf(fact, cells[1..], rate)
  }

  function ShipmentCells(income: seq<int>): seq<Cell> {
    seq(|income|, i requires 0 <= i < |income| => Cell(ShipmentField(i), Income, income[i], false))
  }

  function RefundCells(refunds: seq<int>, component: Component, cost: bool): seq<Cell> {
    seq(|refunds|, i requires 0 <= i < |refunds| => Cell(RefundField(i), component, refunds[i], cost))
  }

  function FeeComponent(category: Fee.Category): Component
    requires !category.ExcludedTransferDebt?
  {
    match category
    case PlatformFee => PlatformFee
    case FbaFulfillmentFee => FbaFulfillmentFee
    case AdvertisingFee => AdvertisingFee
    case FbaStorageFee => FbaStorageFee
    case OtherDeduction => OtherDeduction
  }

  function RowCells(rows: seq<Fee.FeeRow>): seq<Cell> {
    if rows == [] then []
    else
      (if rows[0].category.ExcludedTransferDebt? then []
       else [Cell(FeeColumn(rows[0].column), FeeComponent(rows[0].category), rows[0].amount, true)])
      + RowCells(rows[1..])
  }

  /** The fee columns of transactionResults, which classify the type it has canonicalised. */
  function FeeCells(fees: Fee.FeeFact): seq<Cell> {
    RowCells(Fee.ResultRows(fees, Fee.COLUMNS))
  }

  /** The cells of transactionResults and addShipment, in their order. */
  function CellsOf(a: Amounts): seq<Cell> {
    match a
    case ShipmentOf(income) => ShipmentCells(income)
    case TransactionOf(mode, refunds, withheldTax, fees) =>
      var kind := Fee.CanonicalType(fees.txType);
      (if kind == "ORDER" && mode.Merchant? then RefundCells(refunds, Income, false) else [])
      + (if kind == "REFUND" then RefundCells(refunds, Refund, true) else [])
      + [Cell(WithheldTaxColumn, WithheldTax, withheldTax, true)]
      + FeeCells(fees)
  }

  function FactResults(fact: Fact, fx: Fx): seq<FactResult> {
    ResultsOf(fact.id, CellsOf(fact.amounts), fx.rate)
  }

  // ---- sums ----------------------------------------------------------------------------------

  function SumOf(results: seq<FactResult>, component: Component): int {
    if results == [] then 0
    else (if results[0].component == component then results[0].cny else 0) + SumOf(results[1..], component)
  }

  lemma {:induction false} SumAppends(a: seq<FactResult>, b: seq<FactResult>, component: Component)
    ensures SumOf(a + b, component) == SumOf(a, component) + SumOf(b, component)
  {
    if a == [] {
      assert a + b == b;
    } else {
      SumAppends(a[1..], b, component);
      assert (a + b)[1..] == a[1..] + b;
    }
  }

  /** How many results a component has. */
  function Emitted(results: seq<FactResult>, component: Component): nat {
    if results == [] then 0
    else (if results[0].component == component then 1 else 0) + Emitted(results[1..], component)
  }

  // ---- fees and their audit ------------------------------------------------------------------

  function OnlyFees(results: seq<FactResult>): seq<FactResult> {
    if results == [] then []
    else (if results[0].column.FeeColumn? then [results[0]] else []) + OnlyFees(results[1..])
  }

  lemma {:induction false} OnlyFeesAppends(a: seq<FactResult>, b: seq<FactResult>)
    ensures OnlyFees(a + b) == OnlyFees(a) + OnlyFees(b)
  {
    if a == [] {
      assert a + b == b;
    } else {
      OnlyFeesAppends(a[1..], b);
      assert (a + b)[1..] == a[1..] + b;
      var first := if a[0].column.FeeColumn? then [a[0]] else [];
      assert OnlyFees(a + b) == first + (OnlyFees(a[1..]) + OnlyFees(b));
      Associative(first, OnlyFees(a[1..]), OnlyFees(b));
    }
  }

  lemma {:induction false} ResultsAppend(fact: nat, a: seq<Cell>, b: seq<Cell>, rate: int)
    ensures ResultsOf(fact, a + b, rate) == ResultsOf(fact, a, rate) + ResultsOf(fact, b, rate)
  {
    hide MakeResult;
    if a == [] {
      assert a + b == b;
    } else {
      ResultsAppend(fact, a[1..], b, rate);
      assert (a + b)[1..] == a[1..] + b;
      var result := MakeResult(fact, a[0], rate);
      var first := if result.Some? then [result.value] else [];
      assert ResultsOf(fact, a + b, rate) == first + (ResultsOf(fact, a[1..], rate) + ResultsOf(fact, b, rate));
      Associative(first, ResultsOf(fact, a[1..], rate), ResultsOf(fact, b, rate));
    }
  }

  lemma {:induction false} NoFees(fact: nat, cells: seq<Cell>, rate: int)
    requires forall i | 0 <= i < |cells| :: !cells[i].column.FeeColumn?
    ensures OnlyFees(ResultsOf(fact, cells, rate)) == []
  {
    hide Round, Exact;
    if cells != [] {
      NoFees(fact, cells[1..], rate);
      var first := MakeResult(fact, cells[0], rate);
      OnlyFeesAppends(if first.Some? then [first.value] else [], ResultsOf(fact, cells[1..], rate));
    }
  }

  /** The result that says what an audited row says, as a cost at the fact's rate. */
  predicate Settles(result: FactResult, fact: nat, row: Fee.FeeRow, rate: int) {
    !row.category.ExcludedTransferDebt?
    && result == FactResult(fact, FeeColumn(row.column), FeeComponent(row.category), row.amount,
                            Round(Exact(row.amount, rate, true)))
  }

  predicate SettleAll(results: seq<FactResult>, fact: nat, rows: seq<Fee.FeeRow>, rate: int) {
    |results| == |rows| && forall i | 0 <= i < |rows| :: Settles(results[i], fact, rows[i], rate)
  }

  predicate Emittable(rows: seq<Fee.FeeRow>) {
    forall i | 0 <= i < |rows| :: rows[i].amount != 0 && !rows[i].category.ExcludedTransferDebt?
  }

  lemma {:induction false} RowsAreSettled(fact: nat, rows: seq<Fee.FeeRow>, rate: int)
    requires Emittable(rows)
    ensures SettleAll(OnlyFees(ResultsOf(fact, RowCells(rows), rate)), fact, rows, rate)
  {
    hide Round, Exact, Settles, FeeComponent;
    if rows != [] {
      RowsAreSettled(fact, rows[1..], rate);
      var cell := Cell(FeeColumn(rows[0].column), FeeComponent(rows[0].category), rows[0].amount, true);
      ResultsAppend(fact, [cell], RowCells(rows[1..]), rate);
      var first := MakeResult(fact, cell, rate).value;
      assert [cell][1..] == [] && [first] + [] == [first];
      assert ResultsOf(fact, [cell], rate) == [first];
      OnlyFeesAppends([first], ResultsOf(fact, RowCells(rows[1..]), rate));
      assert [first][1..] == [] && OnlyFees([first]) == [first];
      assert Settles(first, fact, rows[0], rate) by { FirstSettles(fact, rows[0], rate); }
    }
  }

  lemma FirstSettles(fact: nat, row: Fee.FeeRow, rate: int)
    requires row.amount != 0 && !row.category.ExcludedTransferDebt?
    ensures var cell := Cell(FeeColumn(row.column), FeeComponent(row.category), row.amount, true);
            MakeResult(fact, cell, rate).Some? && Settles(MakeResult(fact, cell, rate).value, fact, row, rate)
  {
  }

  lemma {:induction false} KeptAreEmittable(rows: seq<Fee.FeeRow>)
    requires forall i | 0 <= i < |rows| :: rows[i].amount != 0
    ensures Emittable(Fee.Kept(rows))
  {
    if rows != [] {
      KeptAreEmittable(rows[1..]);
    }
  }

  lemma {:induction false} AuditedAreNotZero(fees: Fee.FeeFact, columns: seq<Fee.Column>)
    ensures forall i | 0 <= i < |Fee.AuditRows(fees, columns)| :: Fee.AuditRows(fees, columns)[i].amount != 0
  {
    hide Fee.ClassifyFeeCell;
    if columns != [] {
      AuditedAreNotZero(fees, columns[1..]);
    }
  }

  /** Only the fee columns of a transaction become fee results. */
  lemma FeesOfTransaction(fact: Fact, fx: Fx)
    requires fact.amounts.TransactionOf?
    ensures OnlyFees(FactResults(fact, fx)) == OnlyFees(ResultsOf(fact.id, FeeCells(fact.amounts.fees), fx.rate))
  {
    hide OnlyFees, ResultsOf, FeeCells, Fee.CanonicalType;
    var cells := CellsOf(fact.amounts);
    var others := cells[..|cells| - |FeeCells(fact.amounts.fees)|];
    assert cells == others + FeeCells(fact.amounts.fees);
    NoFees(fact.id, others, fx.rate);
    ResultsAppend(fact.id, others, FeeCells(fact.amounts.fees), fx.rate);
    OnlyFeesAppends(ResultsOf(fact.id, others, fx.rate), ResultsOf(fact.id, FeeCells(fact.amounts.fees), fx.rate));
  }

  /** The fee results a stored transaction emits are, one by one and in order, the rows of its fee audit that
      are not excluded: same column, category and amount, converted as a cost. */
  lemma FeeResultsMatchAudit(fact: Fact, fx: Fx, raw: string)
    requires fact.amounts.TransactionOf? && fact.amounts.fees.txType == Fee.CanonicalType(raw)
    ensures SettleAll(OnlyFees(FactResults(fact, fx)), fact.id,
            Fee.Kept(Fee.AuditRows(fact.amounts.fees, Fee.COLUMNS)), fx.rate)
  {
    hide Fee.ClassifyFeeCell, Fee.CanonicalType, OnlyFees, FactResults, ResultsOf, Fee.AuditRows, Fee.Kept, RowCells;
    var fees := fact.amounts.fees;
    FeesOfTransaction(fact, fx);
    Fee.PathsAgree(fees, raw);
    AuditedAreNotZero(fees, Fee.COLUMNS);
    KeptAreEmittable(Fee.AuditRows(fees, Fee.COLUMNS));
    RowsAreSettled(fact.id, Fee.ResultRows(fees, Fee.COLUMNS), fx.rate);
  }

  // ---- the accumulator -----------------------------------------------------------------------

  datatype Summary = Summary(income: int, refund: int, withheldTax: int, platformFee: int, fbaFulfillmentFee: int,
                             advertisingFee: int, fbaStorageFee: int, otherDeduction: int, platformBalance: int)

  /** Each component's sum, and their balance. */
  function SummaryOf(results: seq<FactResult>): Summary {
    Summary(SumOf(results, Income), SumOf(results, Refund), SumOf(results, WithheldTax), SumOf(results, PlatformFee),
            SumOf(results, FbaFulfillmentFee), SumOf(results, AdvertisingFee), SumOf(results, FbaStorageFee),
            SumOf(results, OtherDeduction), Balance(results))
  }

  /** The signed sum of all results: income counts up, every other component down. */
  function Balance(results: seq<FactResult>): int {
    if results == [] then 0
    else (if results[0].component.Income? then results[0].cny else -results[0].cny) + Balance(results[1..])
  }

  lemma {:induction false} BalanceIsIncomeMinusCosts(results: seq<FactResult>)
    ensures Balance(results) == SumOf(results, Income) - SumOf(results, Refund) - SumOf(results, WithheldTax)
              - SumOf(results, PlatformFee) - SumOf(results, FbaFulfillmentFee) - SumOf(results, AdvertisingFee)
              - SumOf(results, FbaStorageFee) - SumOf(results, OtherDeduction)
  {
    if results != [] {
      BalanceIsIncomeMinusCosts(results[1..]);
    }
  }

  class FinancialAccumulator {
    var income: int
    var refund: int
    var withheldTax: int
    var platformFee: int
    var fbaFulfillmentFee: int
    var advertisingFee: int
    var fbaStorageFee: int
    var otherDeduction: int
    ghost var appended: seq<FactResult>

    function Total(component: Component): int
      reads this
    {
      match component
      case Income => income
      case Refund => refund
      case WithheldTax => withheldTax
      case PlatformFee => platformFee
      case FbaFulfillmentFee => fbaFulfillmentFee
      case AdvertisingFee => advertisingFee
      case FbaStorageFee => fbaStorageFee
      case OtherDeduction => otherDeduction
    }

    ghost predicate Valid()
      reads this
    {
      forall c: Component :: Total(c) == SumOf(appended, c)
    }

    constructor ()
      ensures Valid() && appended == []
    {
      income, refund, withheldTax, platformFee := 0, 0, 0, 0;
      fbaFulfillmentFee, advertisingFee, fbaStorageFee, otherDeduction := 0, 0, 0, 0;
      appended := [];
    }

    method Append(result: FactResult)
      requires Valid()
      modifies this
      ensures Valid() && appended == old(appended) + [result]
    {
      match result.component {
      case Income => income := income + result.cny;
      case Refund => refund := refund + result.cny;
      case WithheldTax => withheldTax := withheldTax + result.cny;
      case PlatformFee => platformFee := platformFee + result.cny;
      case FbaFulfillmentFee => fbaFulfillmentFee := fbaFulfillmentFee + result.cny;
      case AdvertisingFee => advertisingFee := advertisingFee + result.cny;
      case FbaStorageFee => fbaStorageFee := fbaStorageFee + result.cny;
      case OtherDeduction => otherDeduction := otherDeduction + result.cny;
      }
      appended := appended + [result];
      forall c: Component ensures Total(c) == SumOf(appended, c) {
        assert old(Total(c)) == SumOf(old(appended), c);
        SumAppends(old(appended), [result], c);
        assert SumOf([result], c) == if result.component == c then result.cny else 0;
      }
    }

    /** addShipment and addTransaction. */
    method Add(fact: Fact, fx: Fx) returns (r: Result<seq<FactResult>, Error>)
      requires Valid()
      modifies this
      ensures Valid()
      ensures r == (var bad := CheckConversion(fact, fx);
                    if bad.Some? then Err(bad.value) else Ok(FactResults(fact, fx)))
      ensures r.Ok? <==> fx.requested == fact.fxDay && fx.hit >= fact.fxDay && fx.fallback <= 10 && fx.rate >= 0
      ensures r.Err? ==> r.error == if fx.requested != fact.fxDay then DateMismatch(fact.id)
                                    else if fx.hit < fact.fxDay then InvalidHit(fact.id)
                                    else if fx.fallback > 10 then InvalidFallback(fact.id)
                                    else InvalidRate(fact.id)
      ensures appended == old(appended) + (if r.Ok? then r.value else [])
    {
      var bad := CheckConversion(fact, fx);
      if bad.Some? { return Err(bad.value); }
      var cells := CellsOf(fact.amounts);
      var results: seq<FactResult> := [];
      for n := 0 to |cells|
        invariant Valid() && appended == old(appended) + results
        invariant results + ResultsOf(fact.id, cells[n..], fx.rate) == ResultsOf(fact.id, cells, fx.rate)
      {
        assert cells[n..][1..] == cells[n + 1..];
        var result := MakeResult(fact.id, cells[n], fx.rate);
        if result.None? { continue; }
        results := results + [result.value];
        Append(result.value);
      }
      assert results + [] == results;
      return Ok(results);
    }

    /** summary(). */
    method Summarise() returns (s: Summary)
      requires Valid()
      ensures s == SummaryOf(appended)
    {
      var balance := income - refund - withheldTax - platformFee - fbaFulfillmentFee - advertisingFee - fbaStorageFee
                   - otherDeduction;
      BalanceIsIncomeMinusCosts(appended);
      s := Summary(Total(Income), Total(Refund), Total(WithheldTax), Total(PlatformFee), Total(FbaFulfillmentFee),
                   Total(AdvertisingFee), Total(FbaStorageFee), Total(OtherDeduction), balance);
    }
  }

  // ---- the paged loops -----------------------------------------------------------------------

  predicate Ascending(facts: seq<Fact>) {
    (forall i | 0 <= i < |facts| :: facts[i].id >= 1)
    && forall i, j | 0 <= i < j < |facts| :: facts[i].id < facts[j].id
  }

  /** WHERE id > last ORDER BY id, over a table in id order. */
  function After(facts: seq<Fact>, last: nat): seq<Fact> {
    if facts == [] then []
    else if facts[0].id > last then [facts[0]] + After(facts[1..], last)
    else After(facts[1..], last)
  }

  function Page(facts: seq<Fact>, last: nat, limit: nat): seq<Fact> {
    var rest := After(facts, last);
    if |rest| <= limit then rest else rest[..limit]
  }

  /** A page holds at most limit facts, all behind the last one seen, and skips none: whatever else is behind it
      comes after a full page. */
  lemma PageExactly(facts: seq<Fact>, last: nat, limit: nat, fact: Fact)
    requires Ascending(facts)
    ensures var page := Page(facts, last, limit);
            && |page| <= limit
            && (fact in page ==> fact in facts && fact.id > last)
            && (fact in facts && fact.id > last && fact !in page ==>
                  |page| == limit && forall f | f in page :: f.id < fact.id)
  {
    AfterExactly(facts, last, fact);
    var rest := After(facts, last);
    if fact in rest && |rest| > limit && fact !in rest[..limit] {
      var i :| 0 <= i < |rest| && rest[i] == fact;
      assert i >= limit;
    }
  }

  lemma {:induction false} AfterExactly(facts: seq<Fact>, last: nat, fact: Fact)
    requires Ascending(facts)
    ensures fact in After(facts, last) <==> fact in facts && fact.id > last
    ensures Ascending(After(facts, last))
  {
    if facts != [] {
      AfterExactly(facts[1..], last, fact);
      assert facts == [facts[0]] + facts[1..];
      forall f | f in After(facts[1..], last) ensures f.id > facts[0].id { AfterExactly(facts[1..], last, f); }
    }
  }

  function LastId(facts: seq<Fact>, n: nat): nat
    requires n <= |facts|
  {
    if n == 0 then 0 else facts[n - 1].id
  }

  lemma {:induction false} AfterAll(facts: seq<Fact>, last: nat)
    requires forall i | 0 <= i < |facts| :: facts[i].id > last
    ensures After(facts, last) == facts
  {
    if facts != [] {
      AfterAll(facts[1..], last);
      assert facts == [facts[0]] + facts[1..];
    }
  }

  lemma {:induction false} AfterSkips(facts: seq<Fact>, last: nat, n: nat)
    requires Ascending(facts) && n <= |facts| && last == LastId(facts, n)
    ensures After(facts, last) == facts[n..]
  {
    if n == 0 {
      AfterAll(facts, last);
    } else if n == 1 {
      AfterAll(facts[1..], last);
    } else {
      AfterSkips(facts[1..], last, n - 1);
      assert facts[1..][n - 1..] == facts[n..];
    }
  }

  /** A line of the result stream. */
  datatype Line = Line(slice: nat, result: FactResult)

  function Lines(slice: nat, results: seq<FactResult>): seq<Line> {
    seq(|results|, i requires 0 <= i < |results| => Line(slice, results[i]))
  }

  function OfSlice(lines: seq<Line>, slice: nat): seq<FactResult> {
    if lines == [] then []
    else (if lines[0].slice == slice then [lines[0].result] else []) + OfSlice(lines[1..], slice)
  }

  /** One fact of a run: its conversion, then the accumulator of its slice. */
  function FactLines(fact: Fact, fx: Option<Fx>, slices: set<nat>): Result<seq<Line>, Error> {
    if fx.None? then Err(NoConversion(fact.id))
    else if fact.slice !in slices then Err(SliceNotSelected(fact.slice))
    else if CheckConversion(fact, fx.value).Some? then Err(CheckConversion(fact, fx.value).value)
    else Ok(Lines(fact.slice, FactResults(fact, fx.value)))
  }

  /** Every fact once, in order; the first bad one fails the run. */
  function RunLines(facts: seq<Fact>, convert: Fact -> Option<Fx>, slices: set<nat>): Result<seq<Line>, Error> {
    if facts == [] then Ok([])
    else
      match RunLines(facts[..|facts| - 1], convert, slices)
      case Err(error) => Err(error)
      case Ok(before) =>
        var last := facts[|facts| - 1];
        match FactLines(last, convert(last), slices)
        case Err(error) => Err(error)
        case Ok(more) => Ok(before + more)
  }

  lemma {:induction false} RunFailsEarly(facts: seq<Fact>, n: nat, convert: Fact -> Option<Fx>, slices: set<nat>)
    requires n <= |facts| && RunLines(facts[..n], convert, slices).Err?
    ensures RunLines(facts, convert, slices) == RunLines(facts[..n], convert, slices)
    decreases |facts|
  {
    if n == |facts| {
      assert facts[..n] == facts;
    } else {
      var init := facts[..|facts| - 1];
      assert init[..n] == facts[..n];
      RunFailsEarly(init, n, convert, slices);
    }
  }

  lemma {:induction false} OfSliceAppends(a: seq<Line>, b: seq<Line>, slice: nat)
    ensures OfSlice(a + b, slice) == OfSlice(a, slice) + OfSlice(b, slice)
  {
    if a == [] {
      assert a + b == b;
    } else {
      var head := if a[0].slice == slice then [a[0].result] else [];
      OfSliceAppends(a[1..], b, slice);
      assert (a + b)[0] == a[0] && (a + b)[1..] == a[1..] + b;
      Associative(head, OfSlice(a[1..], slice), OfSlice(b, slice));
    }
  }

  lemma {:induction false} OfSliceOfLines(slice: nat, results: seq<FactResult>, other: nat)
    ensures OfSlice(Lines(slice, results), other) == if slice == other then results else []
  {
    if results != [] {
      var lines, rest := Lines(slice, results), Lines(slice, results[1..]);
      assert lines[1..] == rest && lines[0] == Line(slice, results[0]);
      OfSliceOfLines(slice, results[1..], other);
      var head := if slice == other then [results[0]] else [];
      assert OfSlice(lines, other) == head + OfSlice(rest, other);
      hide OfSlice, Lines;
      assert results == [results[0]] + results[1..];
    }
  }

  lemma {:induction false} EmittedAppends(a: seq<FactResult>, b: seq<FactResult>, component: Component)
    ensures Emitted(a + b, component) == Emitted(a, component) + Emitted(b, component)
  {
    if a == [] {
      assert a + b == b;
    } else {
      EmittedAppends(a[1..], b, component);
      assert (a + b)[1..] == a[1..] + b;
    }
  }

  type Accumulators = map<nat, FinancialAccumulator>

  ghost predicate Separate(accs: Accumulators) {
    forall s, t | s in accs && t in accs && accs[s] == accs[t] :: s == t
  }

  ghost predicate Accumulated(accs: Accumulators, lines: seq<Line>)
    reads set s | s in accs :: accs[s]
  {
    forall s | s in accs :: accs[s].Valid() && accs[s].appended == OfSlice(lines, s)
  }

  /** The body of the row loop. */
  method ProcessFact(accs: Accumulators, fact: Fact, fx: Option<Fx>, ghost lines: seq<Line>)
    returns (r: Result<seq<Line>, Error>)
    requires Separate(accs) && Accumulated(accs, lines)
    modifies set s | s in accs :: accs[s]
    ensures r == FactLines(fact, fx, accs.Keys)
    ensures r.Ok? ==> Accumulated(accs, lines + r.value)
  {
    if fx.None? { return Err(NoConversion(fact.id)); }
    if fact.slice !in accs { return Err(SliceNotSelected(fact.slice)); }
    var results := accs[fact.slice].Add(fact, fx.value);
    if results.Err? { return Err(results.error); }
    r := Ok(Lines(fact.slice, results.value));
    forall s | s in accs
      ensures OfSlice(lines + r.value, s) == OfSlice(lines, s) + (if s == fact.slice then results.value else [])
    {
      OfSliceAppends(lines, r.value, s);
      OfSliceOfLines(fact.slice, results.value, s);
    }
  }

  /** The rows of one page, which follow the first done facts of the table. */
  method ProcessPage(accs: Accumulators, rows: seq<Fact>, convert: Fact -> Option<Fx>, ghost before: seq<Line>,
                     ghost table: seq<Fact>, ghost done: nat, lines: seq<Line>)
    returns (r: Result<seq<Line>, Error>)
    requires Separate(accs) && Accumulated(accs, before + lines)
    requires done + |rows| <= |table| && rows == table[done..done + |rows|]
    requires RunLines(table[..done], convert, accs.Keys) == Ok(lines)
    modifies set s | s in accs :: accs[s]
    ensures r.Ok? ==> RunLines(table[..done + |rows|], convert, accs.Keys) == r && Accumulated(accs, before + r.value)
    ensures r.Err? ==> RunLines(table, convert, accs.Keys) == r
  {
    hide FactLines, After;
    var all := lines;
    for n := 0 to |rows|
      invariant RunLines(table[..done + n], convert, accs.Keys) == Ok(all) && Accumulated(accs, before + all)
    {
      var more := ProcessFact(accs, rows[n], convert(rows[n]), before + all);
      NextFact(table, done + n, convert, accs.Keys);
      if more.Err? {
        RunFailsEarly(table, done + n + 1, convert, accs.Keys);
        return Err(more.error);
      }
      assert (before + all) + more.value == before + (all + more.value);
      all := all + more.value;
    }
    return Ok(all);
  }

  lemma NextFact(table: seq<Fact>, n: nat, convert: Fact -> Option<Fx>, slices: set<nat>)
    requires n < |table| && RunLines(table[..n], convert, slices).Ok?
    ensures var more := FactLines(table[n], convert(table[n]), slices);
            RunLines(table[..n + 1], convert, slices)
            == if more.Err? then Err(more.error) else Ok(RunLines(table[..n], convert, slices).value + more.value)
  {
    assert table[..n + 1][..n] == table[..n];
  }

  /** One of the two keyset-paged loops, for any page size. */
  method ProcessTable(accs: Accumulators, table: seq<Fact>, convert: Fact -> Option<Fx>, limit: nat,
                      ghost before: seq<Line>)
    returns (r: Result<seq<Line>, Error>)
    requires limit >= 1 && Ascending(table) && Separate(accs) && Accumulated(accs, before)
    modifies set s | s in accs :: accs[s]
    ensures r == RunLines(table, convert, accs.Keys)
    ensures r.Ok? ==> Accumulated(accs, before + r.value)
  {
    hide RunLines, After;
    var last: nat := 0;
    var lines: seq<Line> := [];
    ghost var done: nat := 0;
    assert before + [] == before && RunLines([], convert, accs.Keys) == Ok([]) by { NothingRun(convert, accs.Keys); }
    while true
      invariant done <= |table| && last == LastId(table, done)
      invariant RunLines(table[..done], convert, accs.Keys) == Ok(lines) && Accumulated(accs, before + lines)
      decreases |table| - done
    {
      var rows := Page(table, last, limit);
      AfterSkips(table, last, done);
      if rows == [] {
        assert table[..done] == table;
        return Ok(lines);
      }
      assert rows == table[done..done + |rows|];
      var page := ProcessPage(accs, rows, convert, before, table, done, lines);
      if page.Err? { return page; }
      lines := page.value;
      last := rows[|rows| - 1].id;
      done := done + |rows|;
    }
  }

  lemma NothingRun(convert: Fact -> Option<Fx>, slices: set<nat>)
    ensures RunLines([], convert, slices) == Ok([])
  {
  }

  /** processRunFacts: shipments, then transactions, then a summary for each slice of the run. */
  method ProcessRunFacts(shipments: seq<Fact>, transactions: seq<Fact>, slices: set<nat>, convert: Fact -> Option<Fx>,
                         limit: nat)
    returns (r: Result<seq<Line>, Error>, summaries: map<nat, Summary>)
    requires limit >= 1 && Ascending(shipments) && Ascending(transactions)
    ensures r == Both(RunLines(shipments, convert, slices), RunLines(transactions, convert, slices))
    ensures RunLines(shipments, convert, slices).Err? ==> r == RunLines(shipments, convert, slices)
    ensures RunLines(shipments, convert, slices).Ok? ==>
              match RunLines(transactions, convert, slices)
              case Err(_) => r == RunLines(transactions, convert, slices)
              case Ok(lines) => r == Ok(RunLines(shipments, convert, slices).value + lines)
    ensures r.Ok? ==> summaries.Keys == slices
                      && forall s | s in slices :: summaries[s] == SummaryOf(OfSlice(r.value, s))
  {
    summaries := map[];
    var accs: Accumulators := map[];
    var left := slices;
    while left != {}
      invariant left <= slices && accs.Keys == slices - left && Separate(accs) && Accumulated(accs, [])
      invariant forall s | s in accs :: fresh(accs[s])
    {
      var s :| s in left;
      var acc := new FinancialAccumulator();
      accs := accs[s := acc];
      left := left - {s};
    }
    assert accs.Keys == slices;
    var first := ProcessTable(accs, shipments, convert, limit, []);
    if first.Err? { return Err(first.error), map[]; }
    assert [] + first.value == first.value;
    var second := ProcessTable(accs, transactions, convert, limit, first.value);
    if second.Err? { return Err(second.error), map[]; }
    r := Ok(first.value + second.value);
    left := slices;
    while left != {}
      invariant left <= slices && summaries.Keys == slices - left && Accumulated(accs, r.value)
      invariant forall s | s in summaries :: summaries[s] == SummaryOf(OfSlice(r.value, s))
    {
      var s :| s in left;
      var summary := accs[s].Summarise();
      summaries := summaries[s := summary];
      left := left - {s};
    }
  }

  function Both(a: Result<seq<Line>, Error>, b: Result<seq<Line>, Error>): Result<seq<Line>, Error> {
    if a.Err? then a else if b.Err? then b else Ok(a.value + b.value)
  }
}
