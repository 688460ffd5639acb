/** The cost model twice: calculateCostAccounting, and the formulas of the monthly cost sheet, evaluated
    exactly. Rates are in units of 1e-8 like amounts. */
module CostAccounting {
  import opened Prelude
  import opened Decimals

  datatype Rates = Rates(profit: Option<int>, minimum: Option<int>)

  /** What the monthly sheet sums up for one month. */
  datatype Month = Month(income: int, refunds: int, tax: int, fees: int) {
    function Net(): int { income - refunds }
    function Expenses(): int { tax + fees }
  }

  datatype Costs = Costs(targetProfit: Option<int>, profit: int, procurement: int, salesCostRate: int,
                         minimumAdjusted: bool)

  // ---- calculateCostAccounting ---------------------------------------------------------------

  predicate RateOk(rate: Option<int>) {
    rate.Some? ==> 0 <= rate.value <= UNIT
  }

  predicate RatesOk(rates: Rates) {
    RateOk(rates.profit) && RateOk(rates.minimum)
  }

  /** normalizeAccountingAssumptions: the first bad rate is reported. */
  function NormalizeRates(rates: Rates): Result<Rates, string> {
    if !RateOk(rates.profit) then Err("INVALID_ACCOUNTING_RATE:profitRate")
    else if !RateOk(rates.minimum) then Err("INVALID_ACCOUNTING_RATE:minimumSalesCostRate")
    else Ok(rates)
  }

  function Times(amount: int, rate: int): real {
    amount as real * (rate as real / UNIT as real)
  }

  function BaseProcurement(m: Month, rates: Rates): real {
    if rates.profit.None? then 0.0 else m.Net() as real - m.Expenses() as real - Times(m.Net(), rates.profit.value)
  }

  predicate MinimumAdjusted(m: Month, rates: Rates) {
    rates.minimum.Some? && m.income > 0 && BaseProcurement(m, rates) < Times(m.income, rates.minimum.value)
  }

  function Procurement(m: Month, rates: Rates): real {
    if MinimumAdjusted(m, rates) then Times(m.income, rates.minimum.value) else BaseProcurement(m, rates)
  }

  function Calculate(m: Month, rates: Rates): (r: Result<Costs, string>)
    ensures r.Ok? <==> RatesOk(rates)
  {
    match NormalizeRates(rates)
    case Err(error) => Err(error)
    case Ok(_) =>
      var procurement := Procurement(m, rates);
      Ok(Costs(
        if rates.profit.None? then None else Some(Round(Times(m.Net(), rates.profit.value))),
        Round(m.Net() as real - m.Expenses() as real - procurement),
        Round(procurement),
        if m.income > 0 then Round(procurement / m.income as real * UNIT as real) else 0,
        MinimumAdjusted(m, rates)))
  }

  // ---- what the figures are ------------------------------------------------------------------

  /** What is left of the net income after the target profit, in units of 1e-16; nothing without a rate. */
  function LeftForCosts(m: Month, rates: Rates): int {
    var net := m.income - m.refunds;
    if rates.profit.None? then 0 else (net - m.tax - m.fees) * UNIT - net * rates.profit.value
  }

  predicate BelowMinimum(m: Month, rates: Rates) {
    rates.minimum.Some? && m.income > 0 && LeftForCosts(m, rates) < m.income * rates.minimum.value
  }

  function ExactProcurement(m: Month, rates: Rates): int {
    if BelowMinimum(m, rates) then m.income * rates.minimum.value else LeftForCosts(m, rates)
  }

  lemma ProcurementIsExact(m: Month, rates: Rates)
    ensures MinimumAdjusted(m, rates) <==> BelowMinimum(m, rates)
    ensures Procurement(m, rates) * UNIT as real == ExactProcurement(m, rates) as real
  {
    var net, rest := m.Net(), m.Net() - m.Expenses();
    if rates.profit.Some? {
      ShareTimesUnit(net, rates.profit.value);
      assert BaseProcurement(m, rates) * UNIT as real == LeftForCosts(m, rates) as real;
    }
    if rates.minimum.Some? {
      ShareTimesUnit(m.income, rates.minimum.value);
    }
  }

  /** Every figure of a month is the exact one, rounded to the nearest unit: the share of the net income that is
      the target profit, what that leaves for procurement after expenses or the minimum if it is less, the
      profit that then remains, and procurement as a share of a positive income. */
  lemma CostsAreExact(m: Month, rates: Rates)
    requires RatesOk(rates)
    ensures var c, p := Calculate(m, rates).value, ExactProcurement(m, rates);
            var net := m.income - m.refunds;
            && (c.targetProfit.None? <==> rates.profit.None?)
            && (rates.profit.Some? ==> WithinHalf(c.targetProfit.value * UNIT - net * rates.profit.value, UNIT))
            && (c.minimumAdjusted <==> BelowMinimum(m, rates))
            && WithinHalf(c.procurement * UNIT - p, UNIT)
            && WithinHalf(c.profit * UNIT - ((net - m.tax - m.fees) * UNIT - p), UNIT)
            && (m.income > 0 ==> WithinHalf(c.salesCostRate * m.income - p, m.income))
            && (m.income <= 0 ==> c.salesCostRate == 0)
  {
    hide Round, WithinHalf, Procurement, MinimumAdjusted, ExactProcurement, BelowMinimum;
    ProcurementIsExact(m, rates);
    var p, procurement := ExactProcurement(m, rates), Procurement(m, rates);
    if rates.profit.Some? {
      ShareTimesUnit(m.Net(), rates.profit.value);
      RoundOfFraction(Times(m.Net(), rates.profit.value), m.Net() * rates.profit.value, UNIT);
    }
    RoundOfFraction(procurement, p, UNIT);
    var rest := m.Net() - m.Expenses();
    Distributes(rest as real, -procurement, UNIT as real);
    RoundOfFraction(m.Net() as real - m.Expenses() as real - procurement, rest * UNIT - p, UNIT);
    if m.income > 0 {
      ShareOfIncome(procurement, p, m.income);
    }
  }

  lemma ShareOfIncome(procurement: real, p: int, income: int)
    requires income > 0 && procurement * UNIT as real == p as real
    ensures WithinHalf(Round(procurement / income as real * UNIT as real) * income - p, income)
  {
    hide Round, WithinHalf;
    var q, u, d := procurement / income as real, UNIT as real, income as real;
    assert q * d == procurement;
    Regroup(u, q, d, procurement);
    assert q * u == u * q && u * procurement == procurement * u;
    RoundOfFraction(q * u, p, income);
  }

  // ---- the formulas of the sheet -------------------------------------------------------------

  datatype Value = Num(n: real) | Blank | Text(text: string) | Truth(b: bool)

  /** Cells of the month's own column by row, and the two rate cells $C$15 and $C$16. */
  datatype Expr =
    | Cell(row: nat)
    | ProfitRate
    | MinimumRate
    | Lit(value: Value)
    | Add(left: Expr, right: Expr)
    | Sub(left: Expr, right: Expr)
    | Mul(left: Expr, right: Expr)
    | Greater(left: Expr, right: Expr)
    | Max(left: Expr, right: Expr)
    | IsEmpty(of: Expr)
    | NotEmpty(of: Expr)
    | And(first: Expr, second: Expr)
    | If(test: Expr, yes: Expr, no: Expr)
    | Round8(of: Expr)

  type Sheet = map<nat, Value>

  function Number(v: Value): real {
    if v.Num? then v.n else 0.0
  }

  function Holds(v: Value): bool {
    v.Truth? && v.b
  }

  function RateCell(rate: Option<int>): Value {
    if rate.None? then Blank else Num(rate.value as real / UNIT as real)
  }

  function Eval(e: Expr, sheet: Sheet, rates: Rates): Value {
    match e
    case Cell(row) => if row in sheet then sheet[row] else Blank
    case ProfitRate => RateCell(rates.profit)
    case MinimumRate => RateCell(rates.minimum)
    case Lit(value) => value
    case Add(a, b) => Num(Number(Eval(a, sheet, rates)) + Number(Eval(b, sheet, rates)))
    case Sub(a, b) => Num(Number(Eval(a, sheet, rates)) - Number(Eval(b, sheet, rates)))
    case Mul(a, b) => Num(Number(Eval(a, sheet, rates)) * Number(Eval(b, sheet, rates)))
    case Greater(a, b) => Truth(Number(Eval(a, sheet, rates)) > Number(Eval(b, sheet, rates)))
    case Max(a, b) =>
      var x, y := Number(Eval(a, sheet, rates)), Number(Eval(b, sheet, rates));
      Num(if x >= y then x else y)
    case IsEmpty(a) => Truth(Eval(a, sheet, rates).Blank?)
    case NotEmpty(a) => Truth(!Eval(a, sheet, rates).Blank?)
    case And(a, b) => Truth(Holds(Eval(a, sheet, rates)) && Holds(Eval(b, sheet, rates)))
    case If(test, yes, no) =>
      if Holds(Eval(test, sheet, rates)) then Eval(yes, sheet, rates) else Eval(no, sheet, rates)
    case Round8(a) => Num(Round(Number(Eval(a, sheet, rates))) as real)
  }

  const TRIGGERED := "已触发"

  function ProfitWithoutCosts(): Expr { Sub(Cell(5), Cell(8)) }

  function BaseFormula(): Expr {
    If(IsEmpty(ProfitRate), Lit(Num(0.0)), Sub(ProfitWithoutCosts(), Mul(ProfitRate, Cell(5))))
  }

  function MinimumApplies(): Expr {
    And(NotEmpty(MinimumRate), Greater(Cell(3), Lit(Num(0.0))))
  }

  function MinimumTriggered(): Expr {
    And(MinimumApplies(), Greater(Mul(Cell(3), MinimumRate), BaseFormula()))
  }

  /** The formula of a row in a month's column; rows 3, 4, 6 and 7 sum up the monthly sheet. */
  function Formula(row: nat): Expr {
    if row == 5 then Sub(Cell(3), Cell(4))
    else if row == 8 then Add(Cell(6), Cell(7))
    else if row == 10 then
      Round8(If(MinimumTriggered(), Sub(ProfitWithoutCosts(), Cell(11)),
                If(IsEmpty(ProfitRate), ProfitWithoutCosts(), Mul(ProfitRate, Cell(5)))))
    else if row == 11 then Round8(If(MinimumApplies(), Max(BaseFormula(), Mul(Cell(3), MinimumRate)), BaseFormula()))
    else if row == 13 then If(MinimumTriggered(), Lit(Text(TRIGGERED)), Lit(Text("—")))
    else Cell(row)
  }

  function Filled(sheet: Sheet, row: nat, rates: Rates): Sheet {
    sheet[row := Eval(Formula(row), sheet, rates)]
  }

  function Sources(m: Month): Sheet {
    map[3 := Num(m.income as real), 4 := Num(m.refunds as real), 6 := Num(m.tax as real), 7 := Num(m.fees as real)]
  }

  /** The month's column, calculated along the references between its cells. */
  function Column(m: Month, rates: Rates): Sheet {
    Filled(Filled(Filled(Filled(Filled(Sources(m), 5, rates), 8, rates), 11, rates), 10, rates), 13, rates)
  }

  // ---- the sheet refines the function --------------------------------------------------------

  lemma Totals(m: Month, rates: Rates)
    ensures var s := Filled(Filled(Sources(m), 5, rates), 8, rates);
            && s == Sources(m)[5 := Num(m.Net() as real)][8 := Num(m.Expenses() as real)]
  {
    assert Eval(Formula(5), Sources(m), rates) == Num(m.Net() as real);
    var s := Filled(Sources(m), 5, rates);
    assert Eval(Formula(8), s, rates) == Num(m.Expenses() as real);
  }

  predicate HasTotals(s: Sheet, m: Month) {
    && 3 in s && s[3] == Num(m.income as real) && 5 in s && s[5] == Num(m.Net() as real)
    && 8 in s && s[8] == Num(m.Expenses() as real)
  }

  lemma BaseIsTheSame(s: Sheet, m: Month, rates: Rates)
    requires HasTotals(s, m)
    ensures Eval(BaseFormula(), s, rates) == Num(BaseProcurement(m, rates))
    ensures Eval(ProfitWithoutCosts(), s, rates) == Num(m.Net() as real - m.Expenses() as real)
  {
    assert Eval(ProfitWithoutCosts(), s, rates) == Num(m.Net() as real - m.Expenses() as real);
    var base := BaseFormula();
    assert Eval(base.test, s, rates) == Truth(rates.profit.None?);
    if rates.profit.Some? {
      assert Eval(base.no.right, s, rates) == Num(Times(m.Net(), rates.profit.value));
      assert base.no.left == ProfitWithoutCosts();
      assert Eval(base.no, s, rates) == Num(BaseProcurement(m, rates));
    } else {
      assert Eval(base.yes, s, rates) == Num(BaseProcurement(m, rates));
    }
  }

  lemma MinimumIsTheSame(s: Sheet, m: Month, rates: Rates)
    requires HasTotals(s, m)
    ensures rates.minimum.Some? ==>
            Eval(Mul(Cell(3), MinimumRate), s, rates) == Num(Times(m.income, rates.minimum.value))
    ensures Eval(MinimumApplies(), s, rates) == Truth(rates.minimum.Some? && m.income > 0)
    ensures Eval(MinimumTriggered(), s, rates) == Truth(MinimumAdjusted(m, rates))
  {
    BaseIsTheSame(s, m, rates);
    var e := MinimumApplies();
    assert Eval(e.first, s, rates) == Truth(rates.minimum.Some?);
    assert Eval(e.second, s, rates) == Truth(m.income > 0);
  }

  lemma ProcurementCell(s: Sheet, m: Month, rates: Rates)
    requires HasTotals(s, m)
    ensures Eval(Formula(11), s, rates) == Num(Round(Procurement(m, rates)) as real)
  {
    hide Round, Procurement, MinimumApplies, BaseFormula;
    BaseIsTheSame(s, m, rates);
    MinimumIsTheSame(s, m, rates);
    var inner := Formula(11).of;
    assert Number(Eval(inner, s, rates)) == Procurement(m, rates) by {
      MaxIsProcurement(m, rates);
      assert inner == If(MinimumApplies(), Max(BaseFormula(), Mul(Cell(3), MinimumRate)), BaseFormula());
    }
  }

  lemma MaxIsProcurement(m: Month, rates: Rates)
    ensures Procurement(m, rates) ==
              if rates.minimum.Some? && m.income > 0 then
                (if BaseProcurement(m, rates) >= Times(m.income, rates.minimum.value) then BaseProcurement(m, rates)
                 else Times(m.income, rates.minimum.value))
              else BaseProcurement(m, rates)
  {
  }

  lemma ProfitCell(s: Sheet, m: Month, rates: Rates)
    requires HasTotals(s, m) && 11 in s && s[11] == Num(Round(Procurement(m, rates)) as real)
    ensures Eval(Formula(10), s, rates).Num?
    ensures Eval(Formula(10), s, rates).n ==
              (if MinimumAdjusted(m, rates) then (m.Net() - m.Expenses() - Round(Procurement(m, rates))) as real
               else Round(m.Net() as real - m.Expenses() as real - BaseProcurement(m, rates)) as real)
  {
    hide Round, Procurement, MinimumTriggered, BaseProcurement;
    BaseIsTheSame(s, m, rates);
    MinimumIsTheSame(s, m, rates);
    var inner := Formula(10).of;
    var kept := inner.no;
    assert kept == If(IsEmpty(ProfitRate), ProfitWithoutCosts(), Mul(ProfitRate, Cell(5)));
    if MinimumAdjusted(m, rates) {
      assert inner.yes == Sub(ProfitWithoutCosts(), Cell(11)) && Eval(Cell(11), s, rates) == s[11];
      assert Eval(inner.yes, s, rates) == Num((m.Net() - m.Expenses() - Round(Procurement(m, rates))) as real);
      assert Eval(inner, s, rates) == Eval(inner.yes, s, rates);
      RoundOfAmount(m.Net() - m.Expenses() - Round(Procurement(m, rates)));
    } else {
      assert Number(Eval(kept, s, rates)) == m.Net() as real - m.Expenses() as real - BaseProcurement(m, rates) by {
        KeptProfit(s, m, rates);
      }
    }
  }

  lemma KeptProfit(s: Sheet, m: Month, rates: Rates)
    requires HasTotals(s, m)
    ensures Number(Eval(If(IsEmpty(ProfitRate), ProfitWithoutCosts(), Mul(ProfitRate, Cell(5))), s, rates))
            == m.Net() as real - m.Expenses() as real - BaseProcurement(m, rates)
  {
    assert Eval(IsEmpty(ProfitRate), s, rates) == Truth(rates.profit.None?);
    assert Eval(ProfitWithoutCosts(), s, rates) == Num(m.Net() as real - m.Expenses() as real);
    if rates.profit.Some? {
      assert Eval(Mul(ProfitRate, Cell(5)), s, rates) == Num(Times(m.Net(), rates.profit.value));
    }
  }

  /** By how much the profit cell differs from profitCny. */
  function ProfitGap(m: Month, rates: Rates): int {
    if MinimumAdjusted(m, rates) then SplitError(m.Net() - m.Expenses(), Procurement(m, rates)) else 0
  }

  /** For all amounts and rates the procurement cell shows procurementCny, the trigger cell minimumAdjusted,
      and the profit cell profitCny, except when the minimum applies and is a tie of the sign of the remaining
      profit: then the cell is one unit nearer to zero. */
  lemma SheetRefinesCalculation(m: Month, rates: Rates)
    requires RatesOk(rates)
    ensures var c, s := Calculate(m, rates).value, Column(m, rates);
            && 11 in s && s[11] == Num(c.procurement as real)
            && 10 in s && s[10] == Num((c.profit - ProfitGap(m, rates)) as real)
            && 13 in s && (s[13] == Text(TRIGGERED) <==> c.minimumAdjusted)
  {
    hide Round, Procurement, MinimumAdjusted, Formula, SplitError;
    Totals(m, rates);
    var s8 := Filled(Filled(Sources(m), 5, rates), 8, rates);
    ProcurementCell(s8, m, rates);
    var s11 := Filled(s8, 11, rates);
    ProfitCell(s11, m, rates);
    RoundOfParts(m.Net() - m.Expenses(), Procurement(m, rates));
    ProcurementUnadjusted(m, rates);
    var s10 := Filled(s11, 10, rates);
    TriggerCell(s10, m, rates);
  }

  /** When the cell is off: the minimum applies, its procurement is a tie, and less than what net income leaves
      after expenses. */
  lemma ProfitGapExactly(m: Month, rates: Rates)
    requires RatesOk(rates)
    ensures ProfitGap(m, rates) == 0 || ProfitGap(m, rates) == 1
    ensures ProfitGap(m, rates) == 1 <==>
              MinimumAdjusted(m, rates) && Tie(Procurement(m, rates))
              && (m.Net() - m.Expenses()) as real > Procurement(m, rates)
  {
    hide Tie, BaseProcurement;
    if MinimumAdjusted(m, rates) {
      ProductIsWithin(m.income as real, rates.minimum.value as real / UNIT as real);
      NoTieAtZero();
    }
  }

  lemma NoTieAtZero()
    ensures !Tie(0.0)
  {
    FloorIs(-0.5, -1);
  }

  lemma ProcurementUnadjusted(m: Month, rates: Rates)
    ensures !MinimumAdjusted(m, rates) ==> Procurement(m, rates) == BaseProcurement(m, rates)
  {
  }

  lemma TriggerCell(s: Sheet, m: Month, rates: Rates)
    requires HasTotals(s, m)
    ensures Eval(Formula(13), s, rates) == Text(TRIGGERED) <==> MinimumAdjusted(m, rates)
  {
    MinimumIsTheSame(s, m, rates);
    assert TRIGGERED[0] != "—"[0];
  }

  /** The tie does occur: three units of income at a minimum rate of one half leave 1.5 units of profit, rounded
      to 2, while the cell subtracts the rounded procurement. */
  lemma ProfitCellCanDiffer()
    ensures var m, rates := Month(3, 0, 0, 0), Rates(None, Some(UNIT / 2));
            Calculate(m, rates).Ok? && Calculate(m, rates).value.profit == 2 && ProfitGap(m, rates) == 1
  {
    var m, rates := Month(3, 0, 0, 0), Rates(None, Some(UNIT / 2));
    assert Times(3, UNIT / 2) == 1.5;
    FloorIs(1.0, 1);
    FloorIs(2.0, 2);
  }

  /** Profit, procurement and expenses make up the net income, except for the same tie. */
  lemma CostsAddUp(m: Month, rates: Rates)
    requires RatesOk(rates)
    ensures var c := Calculate(m, rates).value;
            c.profit + c.procurement + m.Expenses()
            == m.Net() + SplitError(m.Net() - m.Expenses(), Procurement(m, rates))
  {
    hide Round, Procurement, SplitError;
    RoundOfParts(m.Net() - m.Expenses(), Procurement(m, rates));
  }

  /** The minimum rate is a minimum: with positive income the sales cost rate never falls below it. */
  lemma MinimumRateHolds(m: Month, rates: Rates)
    requires RatesOk(rates) && m.income > 0 && rates.minimum.Some?
    ensures Calculate(m, rates).value.salesCostRate >= rates.minimum.value
  {
    hide Round;
    var p, least := Procurement(m, rates), rates.minimum.value;
    assert p >= Times(m.income, least);
    Quotient(m.income as real, least as real / UNIT as real, p);
    RoundIsMonotone(least as real, p / m.income as real * UNIT as real);
    RoundOfAmount(least);
  }

  lemma Quotient(x: real, rate: real, p: real)
    requires x > 0.0 && p >= x * rate
    ensures p / x >= rate
  {
    assert p / x * x == p;
    if p / x < rate {
      Scaled(p / x, rate, x);
    }
  }

  lemma Scaled(a: real, b: real, x: real)
    requires a < b && x > 0.0
    ensures a * x < b * x
  {
  }

  predicate Between(x: int, whole: int) {
    0 <= x <= whole || whole <= x <= 0
  }

  /** The share of the net income that is profit, and the share of the income that is the minimum procurement,
      are at most the whole. */
  predicate InProportion(m: Month, rates: Rates) {
    && (rates.profit.Some? ==> Between(Round(Times(m.Net(), rates.profit.value)), m.Net()))
    && (rates.minimum.Some? ==> Between(Round(Times(m.income, rates.minimum.value)), m.income))
  }

  lemma ShareOfWhole(whole: int, rate: int)
    requires 0 <= rate <= UNIT
    ensures Between(Round(Times(whole, rate)), whole)
  {
    hide Round;
    var share := rate as real / UNIT as real;
    RoundOfAmount(whole);
    RoundOfAmount(0);
    if whole >= 0 {
      ProductIsWithin(whole as real, share);
      RoundIsMonotone(0 as real, Times(whole, rate));
      RoundIsMonotone(Times(whole, rate), whole as real);
    } else {
      ProductIsWithin(-(whole as real), share);
      RoundIsMonotone(whole as real, Times(whole, rate));
      RoundIsMonotone(Times(whole, rate), 0 as real);
    }
  }

  lemma ProductIsWithin(x: real, share: real)
    requires x >= 0.0 && 0.0 <= share <= 1.0
    ensures 0.0 <= x * share <= x
    ensures -x * share == -(x * share)
  {
    assert x - x * share == x * (1.0 - share);
  }

  /** A month with an income of one shows the rates themselves. */
  lemma RatesShow(rates: Rates)
    requires InProportion(Month(UNIT, 0, 0, 0), rates)
    ensures RatesOk(rates)
  {
    hide Round;
    if rates.profit.Some? { RoundOfAmount(rates.profit.value); }
    if rates.minimum.Some? { RoundOfAmount(rates.minimum.value); }
  }

  lemma AcceptedFigures(m: Month, rates: Rates)
    requires RatesOk(rates)
    ensures InProportion(m, rates)
    ensures var c := Calculate(m, rates).value;
            && (c.targetProfit.Some? ==> Between(c.targetProfit.value, m.Net()))
            && (c.minimumAdjusted ==> 0 <= c.procurement <= m.income)
  {
    hide Round, Times, BaseProcurement;
    if rates.profit.Some? { ShareOfWhole(m.Net(), rates.profit.value); }
    if rates.minimum.Some? { ShareOfWhole(m.income, rates.minimum.value); }
  }

  /** The first rate below 0 or above 1 is named; otherwise the rates are taken as they are. */
  lemma RefusedRates(rates: Rates)
    ensures var profitBad := rates.profit.Some? && (rates.profit.value < 0 || rates.profit.value > 1_0000_0000);
            var minimumBad := rates.minimum.Some? && (rates.minimum.value < 0 || rates.minimum.value > 1_0000_0000);
            NormalizeRates(rates) == if profitBad then Err("INVALID_ACCOUNTING_RATE:profitRate")
                                     else if minimumBad then Err("INVALID_ACCOUNTING_RATE:minimumSalesCostRate")
                                     else Ok(rates)
  {
  }

  /** Rates are accepted if and only if they leave every month's figures in proportion. */
  lemma RatesAreAcceptedExactly(rates: Rates)
    ensures NormalizeRates(rates).Ok? <==> forall m: Month :: InProportion(m, rates)
    ensures forall m: Month | Calculate(m, rates).Ok? ::
              var c := Calculate(m, rates).value;
              && (c.targetProfit.Some? ==> Between(c.targetProfit.value, m.Net()))
              && (c.minimumAdjusted ==> 0 <= c.procurement <= m.income)
  {
    hide InProportion, RateOk;
    if RatesOk(rates) {
      forall m: Month
        ensures InProportion(m, rates)
        ensures var c := Calculate(m, rates).value;
                && (c.targetProfit.Some? ==> Between(c.targetProfit.value, m.Net()))
                && (c.minimumAdjusted ==> 0 <= c.procurement <= m.income)
      {
        AcceptedFigures(m, rates);
      }
    } else if forall m: Month :: InProportion(m, rates) {
      RatesShow(rates);
    }
  }

  // ---- rates as texts ------------------------------------------------------------------------

  predicate IsDigit(c: char) {
    '0' <= c <= '9'
  }

  predicate AllDigits(s: string) {
    forall i | 0 <= i < |s| :: IsDigit(s[i])
  }

  /** RATE_PATTERN: zero or one, and up to eight decimals. */
  predicate RatePattern(text: string) {
    && text != "" && (text[0] == '0' || text[0] == '1')
    && (|text| == 1 || (3 <= |text| <= 10 && text[1] == '.' && AllDigits(text[2..])))
  }

  function Digit(c: char): nat
    requires IsDigit(c)
  {
    c as int - '0' as int
  }

  function DigitsValue(s: string): nat
    requires AllDigits(s)
  {
    if s == "" then 0 else DigitsValue(s[..|s| - 1]) * 10 + Digit(s[|s| - 1])
  }

  function Power10(n: nat): nat {
    if n == 0 then 1 else 10 * Power10(n - 1)
  }

  /** The rate a text stands for, in units of 1e-8. */
  function TextValue(text: string): nat
    requires RatePattern(text)
  {
    var decimals := if |text| == 1 then "" else text[2..];
    Digit(text[0]) * UNIT + DigitsValue(decimals) * Power10(8 - |decimals|)
  }

  /** The last k decimal digits of n. */
  function Fixed(n: nat, k: nat): (s: string)
    ensures |s| == k && AllDigits(s)
  {
    if k == 0 then "" else Fixed(n / 10, k - 1) + [(n % 10) as char + '0']
  }

  /** decimal8 of a rate. */
  function RateText(rate: nat): string
    requires rate <= UNIT
  {
    Fixed(rate / UNIT, 1) + "." + Fixed(rate % UNIT, 8)
  }

  /** normalizeAccountingRate of a text. */
  function NormalizeRateText(text: string): Result<string, string> {
    if !RatePattern(text) || TextValue(text) > UNIT then Err("INVALID_ACCOUNTING_RATE")
    else Ok(RateText(TextValue(text)))
  }

  predicate OnlyZeros(s: string) {
    forall i | 0 <= i < |s| :: s[i] == '0'
  }

  lemma {:induction false} ZeroIsOnlyZeros(s: string)
    requires AllDigits(s)
    ensures DigitsValue(s) == 0 <==> OnlyZeros(s)
    ensures |s| <= 8 ==> DigitsValue(s) < Power10(|s|)
  {
    if s != "" {
      var init := s[..|s| - 1];
      ZeroIsOnlyZeros(init);
      assert OnlyZeros(s) <==> OnlyZeros(init) && s[|s| - 1] == '0';
    }
  }

  predicate DecimalsOf(text: string, whole: char, decimals: string) {
    && 1 <= |decimals| <= 8 && text == [whole, '.'] + decimals
    && forall i | 0 <= i < |decimals| :: decimals[i] in "0123456789"
  }

  /** The texts that are accepted: 0 or 1 alone, 0 with one to eight decimals, and 1 with zeros only. */
  lemma AcceptedRateTexts(text: string)
    ensures NormalizeRateText(text).Ok? <==>
              || text == "0" || text == "1"
              || (exists decimals :: DecimalsOf(text, '0', decimals))
              || exists decimals :: DecimalsOf(text, '1', decimals) && OnlyZeros(decimals)
  {
    if RatePattern(text) && |text| > 1 {
      var decimals := text[2..];
      assert text == [text[0], '.'] + decimals;
      assert DecimalsOf(text, text[0], decimals);
      DecimalsAreBelowOne(decimals);
      forall others, whole | DecimalsOf(text, whole, others) ensures others == decimals && whole == text[0] {
        DecimalsFit(text, whole, others);
      }
    } else {
      forall whole, decimals | DecimalsOf(text, whole, decimals) && whole in "01"
        ensures RatePattern(text) && |text| > 1
      {
        DecimalsFit(text, whole, decimals);
      }
    }
  }

  lemma DecimalsFit(text: string, whole: char, decimals: string)
    requires DecimalsOf(text, whole, decimals)
    ensures |text| == 2 + |decimals| && text[0] == whole && text[1] == '.' && text[2..] == decimals
    ensures AllDigits(decimals)
  {
    forall i | 0 <= i < |decimals| ensures IsDigit(decimals[i]) { assert decimals[i] in "0123456789"; }
  }

  lemma DecimalsAreBelowOne(decimals: string)
    requires AllDigits(decimals) && |decimals| <= 8
    ensures 0 <= DigitsValue(decimals) * Power10(8 - |decimals|) < UNIT
    ensures DigitsValue(decimals) * Power10(8 - |decimals|) == 0 <==> OnlyZeros(decimals)
  {
    var value, scale := DigitsValue(decimals), Power10(8 - |decimals|);
    ZeroIsOnlyZeros(decimals);
    PowersMultiply(|decimals|, 8 - |decimals|);
    UnitIsPower();
    hide DigitsValue, Power10;
    ScaledBelow(value, Power10(|decimals|), scale);
  }

  lemma ScaledBelow(value: nat, bound: nat, scale: nat)
    requires value < bound && scale > 0
    ensures 0 <= value * scale < bound * scale && (value * scale == 0 <==> value == 0)
  {
    assert (bound - value) * scale > 0;
  }

  lemma {:induction false} PowersMultiply(a: nat, b: nat)
    ensures Power10(a) * Power10(b) == Power10(a + b) && Power10(b) > 0
    decreases a + b
  {
    if a > 0 {
      PowersMultiply(a - 1, b);
    } else if b > 0 {
      PowersMultiply(a, b - 1);
    }
  }

  lemma {:induction false} FixedIsValue(n: nat, k: nat)
    requires n < Power10(k)
    ensures DigitsValue(Fixed(n, k)) == n
  {
    if k > 0 {
      FixedIsValue(n / 10, k - 1);
      var s := Fixed(n, k);
      assert s[..k - 1] == Fixed(n / 10, k - 1);
    }
  }

  lemma UnitIsPower()
    ensures Power10(8) == UNIT && Power10(0) == 1
  {
    assert Power10(2) == 100 && Power10(4) == 100 * Power10(2);
    assert Power10(6) == 100 * Power10(4) && Power10(8) == 100 * Power10(6);
  }

  /** The text of every rate stands for it, and is left alone by another normalisation. */
  lemma RateTextRoundTrip(rate: nat)
    requires rate <= UNIT
    ensures RatePattern(RateText(rate)) && TextValue(RateText(rate)) == rate
    ensures NormalizeRateText(RateText(rate)) == Ok(RateText(rate))
  {
    hide Fixed;
    var text := RateText(rate);
    var whole := rate / UNIT;
    UnitIsPower();
    FixedIsValue(rate % UNIT, 8);
    OneDigit(whole);
    assert text[0] == Fixed(whole, 1)[0] && text[1] == '.' && text[2..] == Fixed(rate % UNIT, 8);
  }

  lemma OneDigit(n: nat)
    requires n <= 1
    ensures Fixed(n, 1) == (if n == 0 then "0" else "1")
  {
    assert Fixed(n / 10, 0) == "";
  }

  /** The accepted texts stand for exactly the multiples of 1e-8 from zero to one, and normalising keeps what a
      text stands for, however many decimals it was written with. */
  lemma RateTextsAreRates(text: string, rate: int)
    ensures NormalizeRateText(text).Ok? ==>
              var r := NormalizeRateText(text).value;
              RatePattern(text) && RatePattern(r) && TextValue(r) == TextValue(text) && NormalizeRateText(r) == Ok(r)
              && RateOk(Some(TextValue(text)))
    ensures RateOk(Some(rate)) <==>
              exists t :: NormalizeRateText(t).Ok? && RatePattern(t) && TextValue(t) == rate
  {
    hide RatePattern, TextValue, RateText;
    if NormalizeRateText(text).Ok? { RateTextRoundTrip(TextValue(text)); }
    if RateOk(Some(rate)) { RateTextRoundTrip(rate); }
  }

  // ---- quarters and the year -----------------------------------------------------------------

  /** ROUND(SUM(cells), 8). */
  function SumCells(cells: seq<Value>): Value {
    Num(Round(SumOf(cells)) as real)
  }

  function SumOf(cells: seq<Value>): real {
    if cells == [] then 0.0 else Number(cells[0]) + SumOf(cells[1..])
  }

  function QuarterCell(months: seq<Month>, row: nat, rates: Rates): Value {
    SumCells(seq(|months|, i requires 0 <= i < |months| => Eval(Cell(row), Column(months[i], rates), rates)))
  }

  /** The year's column sums the four quarter columns. */
  function YearCell(months: seq<Month>, row: nat, rates: Rates): Value
    requires |months| == 12
  {
    SumCells([QuarterCell(months[..3], row, rates), QuarterCell(months[3..6], row, rates),
              QuarterCell(months[6..9], row, rates), QuarterCell(months[9..], row, rates)])
  }

  /** What the month's cell shows, by SheetRefinesCalculation. */
  function Shown(m: Month, row: nat, rates: Rates): int
    requires RatesOk(rates)
  {
    var c := Calculate(m, rates).value;
    if row == 11 then c.procurement else c.profit - ProfitGap(m, rates)
  }

  function SumShown(months: seq<Month>, row: nat, rates: Rates): int
    requires RatesOk(rates)
  {
    if months == [] then 0 else Shown(months[0], row, rates) + SumShown(months[1..], row, rates)
  }

  lemma {:induction false} SumOfShown(months: seq<Month>, row: nat, rates: Rates)
    requires RatesOk(rates) && (row == 10 || row == 11)
    ensures SumOf(seq(|months|, i requires 0 <= i < |months| => Eval(Cell(row), Column(months[i], rates), rates)))
            == SumShown(months, row, rates) as real
  {
    hide Column, Calculate, ProfitGap;
    if months != [] {
      var cells := seq(|months|, i requires 0 <= i < |months| => Eval(Cell(row), Column(months[i], rates), rates));
      var rest := months[1..];
      assert cells[1..] == seq(|rest|, i requires 0 <= i < |rest| => Eval(Cell(row), Column(rest[i], rates), rates));
      SumOfShown(rest, row, rates);
      SheetRefinesCalculation(months[0], rates);
      assert Number(cells[0]) == Shown(months[0], row, rates) as real;
    }
  }

  lemma {:induction false} SumShownAppends(a: seq<Month>, b: seq<Month>, row: nat, rates: Rates)
    requires RatesOk(rates)
    ensures SumShown(a + b, row, rates) == SumShown(a, row, rates) + SumShown(b, row, rates)
  {
    hide Shown;
    if a == [] {
      assert a + b == b;
    } else {
      SumShownAppends(a[1..], b, row, rates);
      assert (a + b)[1..] == a[1..] + b;
    }
  }

  /** The year's cells are the exact sums of the monthly ones: all procurement of the year, and its profit
      less one unit for each month whose profit cell is off. */
  lemma YearAddsUp(months: seq<Month>, row: nat, rates: Rates)
    requires |months| == 12 && RatesOk(rates) && (row == 10 || row == 11)
    ensures YearCell(months, row, rates) == Num(SumShown(months, row, rates) as real)
  {
    hide Shown, SumShown, Column, Round;
    QuarterAddsUp(months[..3], row, rates);
    QuarterAddsUp(months[3..6], row, rates);
    QuarterAddsUp(months[6..9], row, rates);
    QuarterAddsUp(months[9..], row, rates);
    SumShownAppends(months[..3], months[3..6], row, rates);
    SumShownAppends(months[..6], months[6..9], row, rates);
    SumShownAppends(months[..9], months[9..], row, rates);
    assert months[..6] == months[..3] + months[3..6] && months[..9] == months[..6] + months[6..9];
    assert months == months[..9] + months[9..];
    FourCells(QuarterCell(months[..3], row, rates), QuarterCell(months[3..6], row, rates),
              QuarterCell(months[6..9], row, rates), QuarterCell(months[9..], row, rates));
    RoundOfAmount(SumShown(months, row, rates));
  }

  lemma QuarterAddsUp(months: seq<Month>, row: nat, rates: Rates)
    requires RatesOk(rates) && (row == 10 || row == 11)
    ensures QuarterCell(months, row, rates) == Num(SumShown(months, row, rates) as real)
  {
    hide Shown, SumShown, Column, Round;
    SumOfShown(months, row, rates);
    RoundOfAmount(SumShown(months, row, rates));
  }

  lemma FourCells(a: Value, b: Value, c: Value, d: Value)
    ensures SumOf([a, b, c, d]) == Number(a) + Number(b) + Number(c) + Number(d)
  {
    assert [a, b, c, d][1..] == [b, c, d] && [b, c, d][1..] == [c, d] && [c, d][1..] == [d] && [d][1..] == [];
    assert SumOf([d]) == Number(d);
    assert SumOf([c, d]) == Number(c) + Number(d);
    assert SumOf([b, c, d]) == Number(b) + (Number(c) + Number(d));
  }
}
