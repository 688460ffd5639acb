/** Quarter and year summaries of the monthly financial rows, and the zero-filled sheets made of them. */
module Rollup {
  import opened Prelude

  datatype Period = Month(year: int, month: int) | Quarter(year: int, quarter: int) | Year(year: int)

  datatype Kind = ToQuarter | ToYear

  /** The sixteen columns of ROLLUP_AMOUNT_KEYS, in their order. */
  type Amounts = s: seq<int> | |s| == 16 witness [0, 0, 0, 0, 0, 0, 0, 0, 0, 0, 0, 0, 0, 0, 0, 0]

  datatype Row = Row(period: Period, marketplace: string, currency: string, currencyCount: nat, amounts: Amounts)

  datatype Key = Key(period: Period, marketplace: string)

  datatype Group = Group(currency: string, amounts: Amounts)

  type Groups = map<Key, Group>

  datatype Error = MultipleCurrencies | PeriodInvalid | ScopeMismatch

  /** The period a row is rolled up to; the year is the first four characters of any period. */
  function Label(period: Period, kind: Kind): Period {
    if kind.ToYear? then Year(period.year)
    else if period.Month? then Quarter(period.year, (period.month - 1) / 3 + 1)
    else period
  }

  /** Which months make a quarter: the q-th three of a year. */
  lemma QuarterOfMonth(year: int, month: int, quarter: int)
    ensures Label(Month(year, month), ToQuarter) == Quarter(year, quarter) <==> 3 * (quarter - 1) < month <= 3 * quarter
    ensures Label(Month(year, month), ToYear) == Year(year) && Label(Quarter(year, quarter), ToYear) == Year(year)
  {
  }

  function KeyOf(row: Row, kind: Kind): Key {
    Key(Label(row.period, kind), row.marketplace)
  }

  function Plus(a: Amounts, b: Amounts): Amounts {
    seq(16, i requires 0 <= i < 16 => a[i] + b[i])
  }

  // ---- rollupFinancialRows -------------------------------------------------------------------

  function AddRow(groups: Groups, row: Row, kind: Kind): Result<Groups, Error> {
    if row.currencyCount != 1 || row.currency == "" then Err(MultipleCurrencies)
    else if row.marketplace == "" then Err(PeriodInvalid)
    else
      var key := KeyOf(row, kind);
      if key !in groups then Ok(groups[key := Group(row.currency, row.amounts)])
      else if groups[key].currency != row.currency then Err(MultipleCurrencies)
      else Ok(groups[key := Group(row.currency, Plus(groups[key].amounts, row.amounts))])
  }

  function Roll(rows: seq<Row>, kind: Kind): Result<Groups, Error> {
    if rows == [] then Ok(map[])
    else
      match Roll(rows[..|rows| - 1], kind)
      case Err(error) => Err(error)
      case Ok(groups) => AddRow(groups, rows[|rows| - 1], kind)
  }

  lemma {:induction false} RollFailsEarly(rows: seq<Row>, n: nat, kind: Kind)
    requires n <= |rows| && Roll(rows[..n], kind).Err?
    ensures Roll(rows, kind) == Roll(rows[..n], kind)
    decreases |rows|
  {
    if n == |rows| {
      assert rows[..n] == rows;
    } else {
      assert rows[..|rows| - 1][..n] == rows[..n];
      RollFailsEarly(rows[..|rows| - 1], n, kind);
    }
  }

  /** rollupFinancialRows, filling its Map. */
  method RollupFinancialRows(rows: seq<Row>, kind: Kind) returns (r: Result<Groups, Error>)
    ensures r == Roll(rows, kind)
  {
    var groups: Groups := map[];
    for n := 0 to |rows|
      invariant Roll(rows[..n], kind) == Ok(groups)
    {
      var row := rows[n];
      assert rows[..n + 1][..n] == rows[..n];
      if row.currencyCount != 1 || row.currency == "" {
        RollFailsEarly(rows, n + 1, kind);
        return Err(MultipleCurrencies);
      }
      if row.marketplace == "" {
        RollFailsEarly(rows, n + 1, kind);
        return Err(PeriodInvalid);
      }
      var key := KeyOf(row, kind);
      var group := Group(row.currency, row.amounts);
      if key in groups {
        if groups[key].currency != row.currency {
          RollFailsEarly(rows, n + 1, kind);
          return Err(MultipleCurrencies);
        }
        group := Group(row.currency, Plus(groups[key].amounts, row.amounts));
      }
      groups := groups[key := group];
    }
    assert rows[..|rows|] == rows;
    return Ok(groups);
  }

  // ---- what a roll-up is ---------------------------------------------------------------------

  predicate RowOk(row: Row) {
    row.currencyCount == 1 && row.currency != "" && row.marketplace != ""
  }

  /** Rows under one key share their currency. */
  predicate OneCurrency(rows: seq<Row>, kind: Kind) {
    forall i, j | 0 <= i < |rows| && 0 <= j < |rows| && KeyOf(rows[i], kind) == KeyOf(rows[j], kind) ::
      rows[i].currency == rows[j].currency
  }

  predicate Clean(rows: seq<Row>, kind: Kind) {
    (forall i | 0 <= i < |rows| :: RowOk(rows[i])) && OneCurrency(rows, kind)
  }

  /** The sum of one column over the rows under a key. */
  function Sum(rows: seq<Row>, kind: Kind, key: Key, column: nat): int
    requires column < 16
  {
    if rows == [] then 0
    else
      Sum(rows[..|rows| - 1], kind, key, column)
      + (if KeyOf(rows[|rows| - 1], kind) == key then rows[|rows| - 1].amounts[column] else 0)
  }

  predicate HasKey(rows: seq<Row>, kind: Kind, key: Key) {
    exists i | 0 <= i < |rows| :: KeyOf(rows[i], kind) == key
  }

  /** The groups are exactly the keys of the rows, each with its rows' currency and column sums. */
  ghost predicate Describes(groups: Groups, rows: seq<Row>, kind: Kind) {
    && (forall key: Key :: key in groups <==> HasKey(rows, kind, key))
    && (forall i | 0 <= i < |rows| ::
        KeyOf(rows[i], kind) in groups && groups[KeyOf(rows[i], kind)].currency == rows[i].currency)
    && (forall key, column: nat | key in groups && column < 16 ::
        groups[key].amounts[column] == Sum(rows, kind, key, column))
  }

  lemma {:induction false} NoRowsNoSum(rows: seq<Row>, kind: Kind, key: Key, column: nat)
    requires column < 16 && !HasKey(rows, kind, key)
    ensures Sum(rows, kind, key, column) == 0
  {
    if rows != [] {
      var init := rows[..|rows| - 1];
      assert forall i | 0 <= i < |init| :: init[i] == rows[i];
      NoRowsNoSum(init, kind, key, column);
    }
  }

  lemma KeysGrow(rows: seq<Row>, kind: Kind, key: Key)
    requires rows != []
    ensures HasKey(rows, kind, key) <==> HasKey(rows[..|rows| - 1], kind, key) || KeyOf(rows[|rows| - 1], kind) == key
  {
    var init := rows[..|rows| - 1];
    if HasKey(rows, kind, key) && KeyOf(rows[|rows| - 1], kind) != key {
      var i :| 0 <= i < |rows| && KeyOf(rows[i], kind) == key;
      assert init[i] == rows[i];
    }
    if HasKey(init, kind, key) {
      var i :| 0 <= i < |init| && KeyOf(init[i], kind) == key;
      assert init[i] == rows[i];
    }
  }

  lemma CleanGrows(rows: seq<Row>, kind: Kind, groups: Groups)
    requires rows != [] && Describes(groups, rows[..|rows| - 1], kind) && Clean(rows[..|rows| - 1], kind)
    ensures Clean(rows, kind) <==> AddRow(groups, rows[|rows| - 1], kind).Ok?
  {
    var init, last := rows[..|rows| - 1], rows[|rows| - 1];
    assert forall i | 0 <= i < |init| :: init[i] == rows[i];
    var key := KeyOf(last, kind);
    if key in groups {
      assert HasKey(init, kind, key);
      var i :| 0 <= i < |init| && KeyOf(init[i], kind) == key;
      assert groups[key].currency == init[i].currency;
      if groups[key].currency == last.currency {
        forall j | 0 <= j < |init| && KeyOf(init[j], kind) == key ensures init[j].currency == last.currency {
          assert KeyOf(init[j], kind) in groups;
        }
      }
    } else {
      assert !HasKey(init, kind, key);
    }
  }

  lemma DescribesGrows(rows: seq<Row>, kind: Kind, groups: Groups)
    requires rows != [] && Describes(groups, rows[..|rows| - 1], kind) && AddRow(groups, rows[|rows| - 1], kind).Ok?
    ensures Describes(AddRow(groups, rows[|rows| - 1], kind).value, rows, kind)
  {
    hide HasKey;
    var init, last := rows[..|rows| - 1], rows[|rows| - 1];
    var more, key := AddRow(groups, last, kind).value, KeyOf(last, kind);
    assert forall i | 0 <= i < |init| :: init[i] == rows[i];
    forall k: Key ensures k in more <==> HasKey(rows, kind, k) {
      KeysGrow(rows, kind, k);
    }
    forall i | 0 <= i < |rows|
      ensures KeyOf(rows[i], kind) in more && more[KeyOf(rows[i], kind)].currency == rows[i].currency
    {
      if i < |init| { assert KeyOf(init[i], kind) in groups; }
    }
    forall k, column: nat | k in more && column < 16 ensures more[k].amounts[column] == Sum(rows, kind, k, column) {
      if k == key && key !in groups { NoRowsNoSum(init, kind, key, column); }
    }
  }

  /** A roll-up succeeds exactly on clean rows, and then holds exactly their sums. */
  lemma {:induction false} RollIs(rows: seq<Row>, kind: Kind)
    ensures Roll(rows, kind).Ok? <==> Clean(rows, kind)
    ensures Roll(rows, kind).Ok? ==> Describes(Roll(rows, kind).value, rows, kind)
  {
    hide Describes, AddRow, Clean;
    if rows == [] {
      NothingRolled(kind);
    } else {
      var init := rows[..|rows| - 1];
      RollIs(init, kind);
      if Roll(init, kind).Ok? {
        CleanGrows(rows, kind, Roll(init, kind).value);
        if AddRow(Roll(init, kind).value, rows[|rows| - 1], kind).Ok? {
          DescribesGrows(rows, kind, Roll(init, kind).value);
        }
      } else if Clean(rows, kind) {
        CleanShrinks(rows, kind);
      }
    }
  }

  lemma NothingRolled(kind: Kind)
    ensures Clean([], kind) && Describes(map[], [], kind)
  {
  }

  lemma CleanShrinks(rows: seq<Row>, kind: Kind)
    requires rows != [] && Clean(rows, kind)
    ensures Clean(rows[..|rows| - 1], kind)
  {
    var init := rows[..|rows| - 1];
    assert forall i | 0 <= i < |init| :: init[i] == rows[i];
  }

  // ---- rolling up twice ----------------------------------------------------------------------

  /** The groups as rows, in whatever order they are listed. */
  predicate Lists(order: seq<Key>, groups: Groups) {
    (forall k | k in order :: k in groups) && (forall k | k in groups :: k in order)
    && forall i, j | 0 <= i < j < |order| :: order[i] != order[j]
  }

  function AsRows(order: seq<Key>, groups: Groups): (rows: seq<Row>)
    requires forall k | k in order :: k in groups
    ensures |rows| == |order|
    ensures forall i | 0 <= i < |rows| ::
            rows[i] == Row(order[i].period, order[i].marketplace, groups[order[i]].currency, 1,
                           groups[order[i]].amounts)
  {
    seq(|order|, i requires 0 <= i < |order| =>
      Row(order[i].period, order[i].marketplace, groups[order[i]].currency, 1, groups[order[i]].amounts))
  }

  /** The year of a quarter key. */
  function YearKey(key: Key): Key {
    Key(Label(key.period, ToYear), key.marketplace)
  }

  lemma KeyOfYear(row: Row)
    ensures KeyOf(row, ToYear) == YearKey(KeyOf(row, ToQuarter))
  {
  }

  /** What the listed quarters with the given year sum up to. */
  function ListedSum(order: seq<Key>, rows: seq<Row>, target: Key, column: nat): int
    requires column < 16
  {
    if order == [] then 0
    else
      ListedSum(order[..|order| - 1], rows, target, column)
      + (if YearKey(order[|order| - 1]) == target then Sum(rows, ToQuarter, order[|order| - 1], column) else 0)
  }

  lemma {:induction false} SumOfListing(order: seq<Key>, groups: Groups, rows: seq<Row>, target: Key, column: nat)
    requires column < 16 && (forall k | k in order :: k in groups) && Describes(groups, rows, ToQuarter)
    ensures Sum(AsRows(order, groups), ToYear, target, column) == ListedSum(order, rows, target, column)
  {
    if order != [] {
      var init := order[..|order| - 1];
      assert forall k | k in init :: k in order;
      SumOfListing(init, groups, rows, target, column);
      assert AsRows(order, groups)[..|init|] == AsRows(init, groups);
      assert order[|order| - 1] in order;
    }
  }

  /** Adding one row adds its amount once, if its quarter is listed and in the year. */
  lemma {:induction false} ListedSumOfLast(order: seq<Key>, rows: seq<Row>, target: Key, column: nat)
    requires column < 16 && rows != [] && forall i, j | 0 <= i < j < |order| :: order[i] != order[j]
    ensures var last := rows[|rows| - 1];
            ListedSum(order, rows, target, column) == ListedSum(order, rows[..|rows| - 1], target, column)
              + (if KeyOf(last, ToQuarter) in order && KeyOf(last, ToYear) == target then last.amounts[column] else 0)
    decreases |order|
  {
    hide KeyOf, YearKey;
    if order != [] {
      var init := order[..|order| - 1];
      ListedSumOfLast(init, rows, target, column);
      KeyOfYear(rows[|rows| - 1]);
      assert order == init + [order[|order| - 1]];
      assert order[|order| - 1] !in init;
    }
  }

  lemma {:induction false} ListedSumIsSum(order: seq<Key>, rows: seq<Row>, target: Key, column: nat)
    requires column < 16 && forall i, j | 0 <= i < j < |order| :: order[i] != order[j]
    requires forall i | 0 <= i < |rows| :: KeyOf(rows[i], ToQuarter) in order
    ensures ListedSum(order, rows, target, column) == Sum(rows, ToYear, target, column)
    decreases |rows|
  {
    hide KeyOf, YearKey;
    if rows == [] {
      NothingListed(order, target, column);
    } else {
      var init := rows[..|rows| - 1];
      assert forall i | 0 <= i < |init| :: init[i] == rows[i];
      ListedSumIsSum(order, init, target, column);
      ListedSumOfLast(order, rows, target, column);
    }
  }

  lemma {:induction false} NothingListed(order: seq<Key>, target: Key, column: nat)
    requires column < 16
    ensures ListedSum(order, [], target, column) == 0
  {
    if order != [] {
      NothingListed(order[..|order| - 1], target, column);
    }
  }

  /** When the quarters exist, the year of their rows is clean exactly when the year of the months is. */
  lemma QuartersAreClean(rows: seq<Row>, order: seq<Key>)
    requires Roll(rows, ToQuarter).Ok? && Lists(order, Roll(rows, ToQuarter).value)
    ensures Clean(AsRows(order, Roll(rows, ToQuarter).value), ToYear) <==> Clean(rows, ToYear)
  {
    hide Roll, KeyOf, YearKey, Label, Describes;
    var groups := Roll(rows, ToQuarter).value;
    RollIs(rows, ToQuarter);
    var quarters := AsRows(order, groups);
    forall i | 0 <= i < |quarters| ensures RowOk(quarters[i]) {
      var n := RowOfGroup(rows, order[i], groups);
    }
    if Clean(rows, ToYear) {
      forall i, j | 0 <= i < |quarters| && 0 <= j < |quarters|
          && KeyOf(quarters[i], ToYear) == KeyOf(quarters[j], ToYear)
        ensures quarters[i].currency == quarters[j].currency
      {
        YearOfRow(quarters[i], order[i]);
        YearOfRow(quarters[j], order[j]);
        SameYearSameCurrency(rows, groups, order[i], order[j]);
      }
    }
    if Clean(quarters, ToYear) {
      forall m, n | 0 <= m < |rows| && 0 <= n < |rows| && KeyOf(rows[m], ToYear) == KeyOf(rows[n], ToYear)
        ensures rows[m].currency == rows[n].currency
      {
        var i := QuarterOf(rows, groups, order, m);
        var j := QuarterOf(rows, groups, order, n);
        assert quarters[i].currency == quarters[j].currency;
      }
    }
  }

  lemma YearOfRow(row: Row, key: Key)
    requires row.period == key.period && row.marketplace == key.marketplace
    ensures KeyOf(row, ToYear) == YearKey(key)
  {
  }

  lemma RowOfGroup(rows: seq<Row>, key: Key, groups: Groups) returns (n: nat)
    requires key in groups && Describes(groups, rows, ToQuarter) && Clean(rows, ToQuarter)
    ensures n < |rows| && KeyOf(rows[n], ToQuarter) == key && rows[n].currency == groups[key].currency
    ensures groups[key].currency != "" && key.marketplace != ""
  {
    assert HasKey(rows, ToQuarter, key);
    n :| 0 <= n < |rows| && KeyOf(rows[n], ToQuarter) == key;
    assert KeyOf(rows[n], ToQuarter) in groups && RowOk(rows[n]);
  }

  lemma SameYearSameCurrency(rows: seq<Row>, groups: Groups, a: Key, b: Key)
    requires Describes(groups, rows, ToQuarter) && Clean(rows, ToQuarter) && Clean(rows, ToYear)
    requires a in groups && b in groups && YearKey(a) == YearKey(b)
    ensures groups[a].currency == groups[b].currency
  {
    hide KeyOf, YearKey, Describes;
    var m := RowOfGroup(rows, a, groups);
    var n := RowOfGroup(rows, b, groups);
    KeyOfYear(rows[m]);
    KeyOfYear(rows[n]);
    assert KeyOf(rows[m], ToYear) == KeyOf(rows[n], ToYear);
  }

  lemma QuarterOf(rows: seq<Row>, groups: Groups, order: seq<Key>, n: nat) returns (i: nat)
    requires Describes(groups, rows, ToQuarter) && Lists(order, groups) && n < |rows|
    ensures i < |order| && |AsRows(order, groups)| == |order| && AsRows(order, groups)[i].currency == rows[n].currency
    ensures KeyOf(AsRows(order, groups)[i], ToYear) == KeyOf(rows[n], ToYear)
  {
    var key := KeyOf(rows[n], ToQuarter);
    assert key in groups && key in order;
    i :| 0 <= i < |order| && order[i] == key;
    KeyOfYear(rows[n]);
    YearOfRow(AsRows(order, groups)[i], key);
  }

  /** The year of the months and the year of their quarters, in any order, have the same rows. */
  lemma SameYearRows(rows: seq<Row>, order: seq<Key>)
    requires Roll(rows, ToQuarter).Ok? && Lists(order, Roll(rows, ToQuarter).value)
    requires Roll(rows, ToYear).Ok? && Roll(AsRows(order, Roll(rows, ToQuarter).value), ToYear).Ok?
    ensures Roll(AsRows(order, Roll(rows, ToQuarter).value), ToYear) == Roll(rows, ToYear)
  {
    hide Roll, KeyOf, YearKey, Label, Describes, Clean;
    var groups := Roll(rows, ToQuarter).value;
    var quarters := AsRows(order, groups);
    var once, twice := Roll(rows, ToYear).value, Roll(quarters, ToYear).value;
    RollIs(rows, ToQuarter);
    RollIs(rows, ToYear);
    RollIs(quarters, ToYear);
    forall key: Key ensures key in once <==> key in twice {
      SameYearKeys(rows, groups, order, key, once, twice);
    }
    forall key | key in once ensures once[key] == twice[key] {
      SameYearGroup(rows, groups, order, key, once, twice);
    }
    assert once.Keys == twice.Keys;
    assert once == twice;
  }

  lemma SameYearKeys(rows: seq<Row>, groups: Groups, order: seq<Key>, key: Key, once: Groups, twice: Groups)
    requires Describes(groups, rows, ToQuarter) && Clean(rows, ToQuarter) && Lists(order, groups)
    requires Describes(once, rows, ToYear) && Describes(twice, AsRows(order, groups), ToYear)
    ensures key in once <==> key in twice
  {
    hide KeyOf, YearKey, Clean, Describes;
    var quarters := AsRows(order, groups);
    if key in once {
      var n := DescribedRow(once, rows, ToYear, key);
      var i := QuarterOf(rows, groups, order, n);
      DescribedCurrency(twice, quarters, ToYear, i);
    }
    if key in twice {
      var i := DescribedRow(twice, quarters, ToYear, key);
      var n := RowOfGroup(rows, order[i], groups);
      YearOfRow(quarters[i], order[i]);
      KeyOfYear(rows[n]);
      DescribedCurrency(once, rows, ToYear, n);
    }
  }

  lemma DescribedSum(groups: Groups, rows: seq<Row>, kind: Kind, key: Key, column: nat)
    requires Describes(groups, rows, kind) && key in groups && column < 16
    ensures groups[key].amounts[column] == Sum(rows, kind, key, column)
  {
  }

  lemma DescribedCurrency(groups: Groups, rows: seq<Row>, kind: Kind, n: nat)
    requires Describes(groups, rows, kind) && n < |rows|
    ensures KeyOf(rows[n], kind) in groups && groups[KeyOf(rows[n], kind)].currency == rows[n].currency
  {
  }

  lemma DescribedRow(groups: Groups, rows: seq<Row>, kind: Kind, key: Key) returns (n: nat)
    requires Describes(groups, rows, kind) && key in groups
    ensures n < |rows| && KeyOf(rows[n], kind) == key
  {
    assert HasKey(rows, kind, key);
    n :| 0 <= n < |rows| && KeyOf(rows[n], kind) == key;
  }

  lemma SameYearGroup(rows: seq<Row>, groups: Groups, order: seq<Key>, key: Key, once: Groups, twice: Groups)
    requires Describes(groups, rows, ToQuarter) && Clean(rows, ToQuarter) && Lists(order, groups)
    requires Describes(once, rows, ToYear) && Describes(twice, AsRows(order, groups), ToYear) && key in once
             && key in twice
    ensures once[key] == twice[key]
  {
    hide KeyOf, YearKey, Clean, Describes, AsRows;
    var quarters := AsRows(order, groups);
    var n := DescribedRow(once, rows, ToYear, key);
    var i := QuarterOf(rows, groups, order, n);
    DescribedCurrency(once, rows, ToYear, n);
    DescribedCurrency(twice, quarters, ToYear, i);
    forall column: nat | column < 16 ensures once[key].amounts[column] == twice[key].amounts[column] {
      DescribedSum(once, rows, ToYear, key, column);
      DescribedSum(twice, quarters, ToYear, key, column);
      SameSums(rows, groups, order, key, column);
    }
    assert once[key].amounts == twice[key].amounts;
  }

  lemma SameSums(rows: seq<Row>, groups: Groups, order: seq<Key>, key: Key, column: nat)
    requires Describes(groups, rows, ToQuarter) && Lists(order, groups) && column < 16
    ensures Sum(rows, ToYear, key, column) == Sum(AsRows(order, groups), ToYear, key, column)
  {
    hide KeyOf, YearKey, Describes, Sum;
    forall m | 0 <= m < |rows| ensures KeyOf(rows[m], ToQuarter) in order {
      DescribedCurrency(groups, rows, ToQuarter, m);
    }
    ListedSumIsSum(order, rows, key, column);
    SumOfListing(order, groups, rows, key, column);
  }

  /** Rolling months up to years equals rolling them up to quarters and those up to years, however the quarter
      rows are ordered: both fail or both succeed, and on success with the same rows. */
  lemma YearOfQuartersIsYearOfMonths(rows: seq<Row>, order: seq<Key>)
    requires Roll(rows, ToQuarter).Ok? ==> Lists(order, Roll(rows, ToQuarter).value)
    ensures Roll(rows, ToQuarter).Err? ==> Roll(rows, ToYear).Err?
    ensures Roll(rows, ToQuarter).Ok? ==>
              var twice := Roll(AsRows(order, Roll(rows, ToQuarter).value), ToYear);
              if Roll(rows, ToYear).Ok? then twice == Roll(rows, ToYear) else twice.Err?
  {
    hide Roll, Describes, KeyOf;
    RollIs(rows, ToQuarter);
    RollIs(rows, ToYear);
    if Roll(rows, ToQuarter).Ok? {
      QuartersAreClean(rows, order);
      RollIs(AsRows(order, Roll(rows, ToQuarter).value), ToYear);
      if Roll(rows, ToYear).Ok? {
        SameYearRows(rows, order);
      }
    } else if Clean(rows, ToYear) {
      forall i, j | 0 <= i < |rows| && 0 <= j < |rows| && KeyOf(rows[i], ToQuarter) == KeyOf(rows[j], ToQuarter)
        ensures rows[i].currency == rows[j].currency
      {
        KeyOfYear(rows[i]);
        KeyOfYear(rows[j]);
      }
    }
  }

  /** With marketplaces throughout, as the query supplies them, the error is the same one too. */
  lemma {:induction false} OnlyCurrencyErrors(rows: seq<Row>, kind: Kind)
    requires forall i | 0 <= i < |rows| :: rows[i].marketplace != ""
    ensures Roll(rows, kind).Err? ==> Roll(rows, kind).error == MultipleCurrencies
  {
    if rows != [] {
      OnlyCurrencyErrors(rows[..|rows| - 1], kind);
    }
  }

  /** The months rolled up to quarters, and those, in some order, to years. */
  function TwoSteps(rows: seq<Row>, order: seq<Key>): Result<Groups, Error>
    requires Roll(rows, ToQuarter).Ok? ==> Lists(order, Roll(rows, ToQuarter).value)
  {
    match Roll(rows, ToQuarter)
    case Err(error) => Err(error)
    case Ok(groups) => Roll(AsRows(order, groups), ToYear)
  }

  /** A row that lacks nothing but its marketplace. */
  predicate Unplaced(row: Row) {
    row.currencyCount == 1 && row.currency != "" && row.marketplace == ""
  }

  lemma {:induction false} FirstFailure(rows: seq<Row>, kind: Kind) returns (n: nat)
    requires Roll(rows, kind).Err?
    ensures n < |rows| && Roll(rows[..n], kind).Ok?
            && Roll(rows, kind) == AddRow(Roll(rows[..n], kind).value, rows[n], kind)
  {
    hide AddRow;
    n := |rows| - 1;
    if Roll(rows[..n], kind).Err? {
      n := FirstFailure(rows[..n], kind);
      assert rows[..|rows| - 1][..n] == rows[..n];
    }
  }

  /** Which error is the missing marketplace: that of the first bad row. */
  lemma UnplacedExactly(rows: seq<Row>, kind: Kind)
    ensures Roll(rows, kind) == Err(PeriodInvalid) <==>
            exists n | 0 <= n < |rows| :: Unplaced(rows[n]) && Clean(rows[..n], kind)
  {
    hide Roll, Clean;
    if Roll(rows, kind) == Err(PeriodInvalid) {
      var n := FirstFailure(rows, kind);
      RollIs(rows[..n], kind);
      assert Unplaced(rows[n]) && Clean(rows[..n], kind);
    }
    if n: int :| 0 <= n < |rows| && Unplaced(rows[n]) && Clean(rows[..n], kind) {
      RollIs(rows[..n], kind);
      RollLast(rows[..n], rows[n], kind);
      assert rows[..n] + [rows[n]] == rows[..n + 1];
      RollFailsEarly(rows, n + 1, kind);
    }
  }

  lemma YearCleanIsQuarterClean(rows: seq<Row>)
    requires Clean(rows, ToYear)
    ensures Clean(rows, ToQuarter)
  {
    hide KeyOf;
    forall i, j | 0 <= i < |rows| && 0 <= j < |rows| && KeyOf(rows[i], ToQuarter) == KeyOf(rows[j], ToQuarter)
      ensures rows[i].currency == rows[j].currency
    {
      KeyOfYear(rows[i]);
      KeyOfYear(rows[j]);
    }
  }

  /** The second step meets no missing marketplace. */
  lemma SecondStepIsPlaced(rows: seq<Row>, order: seq<Key>)
    requires Roll(rows, ToQuarter).Ok? && Lists(order, Roll(rows, ToQuarter).value)
    ensures TwoSteps(rows, order) != Err(PeriodInvalid)
  {
    hide Roll, Describes, KeyOf;
    RollIs(rows, ToQuarter);
    var groups := Roll(rows, ToQuarter).value;
    var quarters := AsRows(order, groups);
    forall i | 0 <= i < |quarters| ensures quarters[i].marketplace != "" {
      assert order[i] in order;
      var n := RowOfGroup(rows, order[i], groups);
    }
    OnlyCurrencyErrors(quarters, ToYear);
  }

  lemma PlacedBefore(rows: seq<Row>, n: nat, kind: Kind, i: nat)
    requires i < n <= |rows| && Clean(rows[..n], kind)
    ensures !Unplaced(rows[i])
  {
    assert RowOk(rows[..n][i]);
  }

  /** Of two rows before which all is clean only one can be bad. */
  lemma OneFirstUnplaced(rows: seq<Row>, n: nat, m: nat, kind: Kind, other: Kind)
    requires n < |rows| && m < |rows| && Unplaced(rows[n]) && Unplaced(rows[m])
    requires Clean(rows[..n], kind) && Clean(rows[..m], other)
    ensures n == m
  {
    hide Clean, RowOk, Unplaced;
    if n < m { PlacedBefore(rows, m, other, n); }
    if m < n { PlacedBefore(rows, n, kind, m); }
  }

  /** A bad row without marketplace that only the quarters get to: the year met two currencies before it. */
  predicate HidesUnplaced(rows: seq<Row>, n: nat) {
    n < |rows| && Unplaced(rows[n]) && Clean(rows[..n], ToQuarter) && !Clean(rows[..n], ToYear)
  }

  lemma BothFail(rows: seq<Row>, order: seq<Key>)
    requires Roll(rows, ToQuarter).Ok? ==> Lists(order, Roll(rows, ToQuarter).value)
    requires Roll(rows, ToYear).Err?
    ensures TwoSteps(rows, order).Err?
    ensures TwoSteps(rows, order) == Err(PeriodInvalid) <==> Roll(rows, ToQuarter) == Err(PeriodInvalid)
    ensures Roll(rows, ToYear) == Err(PeriodInvalid) ==> Roll(rows, ToQuarter) == Err(PeriodInvalid)
    ensures Roll(rows, ToYear).error.MultipleCurrencies? || Roll(rows, ToYear).error.PeriodInvalid?
    ensures TwoSteps(rows, order).error.MultipleCurrencies? || TwoSteps(rows, order).error.PeriodInvalid?
  {
    hide Roll, Clean, AddRow;
    YearOfQuartersIsYearOfMonths(rows, order);
    if Roll(rows, ToQuarter).Ok? {
      SecondStepIsPlaced(rows, order);
      RollErrors(AsRows(order, Roll(rows, ToQuarter).value), ToYear);
    }
    UnplacedExactly(rows, ToQuarter);
    UnplacedExactly(rows, ToYear);
    if n: int :| 0 <= n < |rows| && Unplaced(rows[n]) && Clean(rows[..n], ToYear) {
      YearCleanIsQuarterClean(rows[..n]);
    }
    RollErrors(rows, ToYear);
    RollErrors(rows, ToQuarter);
  }

  lemma RollErrors(rows: seq<Row>, kind: Kind)
    ensures Roll(rows, kind).Err? ==>
            Roll(rows, kind).error.MultipleCurrencies? || Roll(rows, kind).error.PeriodInvalid?
  {
    if Roll(rows, kind).Err? {
      var n := FirstFailure(rows, kind);
    }
  }

  /** Rolling up in two steps differs from rolling up in one, errors included, if and only if some row without
      marketplace is preceded by clean quarters of which two in one year differ in currency. With marketplaces
      throughout, as the query supplies them, the two are the same. */
  lemma TwoStepsDifferExactly(rows: seq<Row>, order: seq<Key>)
    requires Roll(rows, ToQuarter).Ok? ==> Lists(order, Roll(rows, ToQuarter).value)
    ensures TwoSteps(rows, order) != Roll(rows, ToYear) <==> exists n: nat :: HidesUnplaced(rows, n)
    ensures (forall i | 0 <= i < |rows| :: rows[i].marketplace != "") ==> TwoSteps(rows, order) == Roll(rows, ToYear)
  {
    hide Roll, Clean, TwoSteps;
    if Roll(rows, ToYear).Ok? {
      SameSuccess(rows, order);
    } else {
      BothFail(rows, order);
      UnplacedExactly(rows, ToQuarter);
      UnplacedExactly(rows, ToYear);
      if Roll(rows, ToQuarter) == Err(PeriodInvalid) {
        var n: int :| 0 <= n < |rows| && Unplaced(rows[n]) && Clean(rows[..n], ToQuarter);
        if Clean(rows[..n], ToYear) {
          forall m: nat ensures !HidesUnplaced(rows, m) {
            if HidesUnplaced(rows, m) { OneFirstUnplaced(rows, n, m, ToYear, ToQuarter); }
          }
        } else {
          assert HidesUnplaced(rows, n);
          forall m | 0 <= m < |rows| && Unplaced(rows[m]) ensures !Clean(rows[..m], ToYear) {
            if Clean(rows[..m], ToYear) { OneFirstUnplaced(rows, n, m, ToQuarter, ToYear); }
          }
        }
      }
    }
  }

  lemma SameSuccess(rows: seq<Row>, order: seq<Key>)
    requires Roll(rows, ToQuarter).Ok? ==> Lists(order, Roll(rows, ToQuarter).value)
    requires Roll(rows, ToYear).Ok?
    ensures TwoSteps(rows, order) == Roll(rows, ToYear)
    ensures forall n: nat :: !HidesUnplaced(rows, n)
  {
    hide Roll;
    YearOfQuartersIsYearOfMonths(rows, order);
    RollIs(rows, ToYear);
  }

  const ZEROS: Amounts := [0, 0, 0, 0, 0, 0, 0, 0, 0, 0, 0, 0, 0, 0, 0, 0]

  /** Two currencies of one marketplace in different quarters, then a row without marketplace. */
  function MixedRows(): seq<Row> {
    [Row(Month(2024, 1), "DE", "EUR", 1, ZEROS)] + [Row(Month(2024, 4), "DE", "USD", 1, ZEROS)]
        + [Row(Month(2024, 5), "", "EUR", 1, ZEROS)]
  }

  lemma FirstMixedRow(kind: Kind)
    ensures Roll(MixedRows()[..1], kind) == Ok(map[Key(Label(Month(2024, 1), kind), "DE") := Group("EUR", ZEROS)])
  {
    var a := MixedRows()[0];
    RollLast([], a, kind);
    assert [] + [a] == MixedRows()[..1];
    assert map[][KeyOf(a, kind) := Group("EUR", ZEROS)]
           == map[Key(Label(Month(2024, 1), kind), "DE") := Group("EUR", ZEROS)];
  }

  /** Such rows do have different errors: the year meets the second currency first, the quarters the missing
      marketplace. */
  lemma ErrorsCanDiffer()
    ensures Roll(MixedRows(), ToYear) == Err(MultipleCurrencies) && Roll(MixedRows(), ToQuarter) == Err(PeriodInvalid)
  {
    hide Roll;
    var rows := MixedRows();
    FirstMixedRow(ToYear);
    FirstMixedRow(ToQuarter);
    assert rows[..1] + [rows[1]] == rows[..2] && rows[..2] + [rows[2]] == rows;
    RollLast(rows[..1], rows[1], ToYear);
    RollLast(rows[..2], rows[2], ToYear);
    RollLast(rows[..1], rows[1], ToQuarter);
    RollLast(rows[..2], rows[2], ToQuarter);
  }

  lemma RollLast(init: seq<Row>, row: Row, kind: Kind)
    ensures Roll(init + [row], kind)
            == if Roll(init, kind).Err? then Roll(init, kind) else AddRow(Roll(init, kind).value, row, kind)
  {
    assert (init + [row])[..|init|] == init;
  }

  // ---- zero-filled sheets and conservation ---------------------------------------------------

  /** A column of a sheet: a weighting of the sixteen amounts, as net, expenses and profit are. */
  type Weights = s: seq<int> | |s| == 16 witness [0, 0, 0, 0, 0, 0, 0, 0, 0, 0, 0, 0, 0, 0, 0, 0]

  function Weighted(a: Amounts, w: Weights, n: nat): int
    requires n <= 16
  {
    if n == 0 then 0 else Weighted(a, w, n - 1) + a[n - 1] * w[n - 1]
  }

  function Value(a: Amounts, w: Weights): int {
    Weighted(a, w, 16)
  }

  lemma {:induction false} WeightedAdds(a: Amounts, b: Amounts, w: Weights, n: nat)
    requires n <= 16
    ensures Weighted(Plus(a, b), w, n) == Weighted(a, w, n) + Weighted(b, w, n)
  {
    if n > 0 {
      WeightedAdds(a, b, w, n - 1);
      assert (a[n - 1] + b[n - 1]) * w[n - 1] == a[n - 1] * w[n - 1] + b[n - 1] * w[n - 1];
    }
  }

  function Total(rows: seq<Row>, w: Weights): int {
    if rows == [] then 0 else Total(rows[..|rows| - 1], w) + Value(rows[|rows| - 1].amounts, w)
  }

  /** The sum of a sheet column: groups that are there, zero for the keys that are not. */
  function SheetTotal(keys: seq<Key>, groups: Groups, w: Weights): int {
    if keys == [] then 0
    else
      var key := keys[|keys| - 1];
      SheetTotal(keys[..|keys| - 1], groups, w) + (if key in groups then Value(groups[key].amounts, w) else 0)
  }

  /** dense: one row for every key in scope, in the order of the scope. */
  function Dense(scope: seq<Key>, groups: Groups): Result<seq<Group>, Error> {
    if exists key | key in groups :: key !in scope then Err(ScopeMismatch)
    else Ok(seq(|scope|, i requires 0 <= i < |scope| =>
      if scope[i] in groups then groups[scope[i]] else Group("", seq(16, _ => 0))))
  }

  predicate Distinct(keys: seq<Key>) {
    forall i, j | 0 <= i < j < |keys| :: keys[i] != keys[j]
  }

  lemma {:induction false} SheetTotalUpdated(keys: seq<Key>, groups: Groups, key: Key, group: Group, w: Weights)
    requires Distinct(keys)
    ensures SheetTotal(keys, groups[key := group], w) == SheetTotal(keys, groups, w)
              + (if key !in keys then 0
                 else Value(group.amounts, w) - (if key in groups then Value(groups[key].amounts, w) else 0))
    decreases |keys|
  {
    hide Value;
    if keys != [] {
      var init := keys[..|keys| - 1];
      SheetTotalUpdated(init, groups, key, group, w);
      assert keys == init + [keys[|keys| - 1]];
      assert keys[|keys| - 1] !in init;
    }
  }

  lemma {:induction false} EmptySheet(keys: seq<Key>, w: Weights)
    ensures SheetTotal(keys, map[], w) == 0
  {
    if keys != [] {
      EmptySheet(keys[..|keys| - 1], w);
    }
  }

  /** A roll-up keeps every column's total, on any sheet whose scope covers it. */
  lemma {:induction false} RollConserves(rows: seq<Row>, kind: Kind, scope: seq<Key>, w: Weights)
    requires Roll(rows, kind).Ok? && Distinct(scope) && forall k | k in Roll(rows, kind).value :: k in scope
    ensures SheetTotal(scope, Roll(rows, kind).value, w) == Total(rows, w)
    decreases |rows|
  {
    hide Weighted;
    if rows == [] {
      EmptySheet(scope, w);
    } else {
      var init, last := rows[..|rows| - 1], rows[|rows| - 1];
      var before, key := Roll(init, kind).value, KeyOf(last, kind);
      assert forall k | k in before :: k in Roll(rows, kind).value;
      RollConserves(init, kind, scope, w);
      SheetTotalUpdated(scope, before, key, Roll(rows, kind).value[key], w);
      if key in before {
        WeightedAdds(before[key].amounts, last.amounts, w, 16);
      }
    }
  }

  /** The monthly rows, unique by period and marketplace, as the sheet looks them up. */
  function ByKey(rows: seq<Row>): Groups {
    if rows == [] then map[]
    else
      var last := rows[|rows| - 1];
      ByKey(rows[..|rows| - 1])[Key(last.period, last.marketplace) := Group(last.currency, last.amounts)]
  }

  predicate UniqueRows(rows: seq<Row>) {
    forall i, j | 0 <= i < j < |rows| ::
        Key(rows[i].period, rows[i].marketplace) != Key(rows[j].period, rows[j].marketplace)
  }

  lemma {:induction false} ByKeyHas(rows: seq<Row>, key: Key)
    ensures key in ByKey(rows) <==> exists i | 0 <= i < |rows| :: Key(rows[i].period, rows[i].marketplace) == key
  {
    if rows != [] {
      var init := rows[..|rows| - 1];
      ByKeyHas(init, key);
      assert forall i | 0 <= i < |init| :: init[i] == rows[i];
      if i :| 0 <= i < |rows| && Key(rows[i].period, rows[i].marketplace) == key {
        if i < |init| {
          assert Key(init[i].period, init[i].marketplace) == key;
        }
      }
    }
  }

  lemma {:induction false} MonthsConserve(rows: seq<Row>, scope: seq<Key>, w: Weights)
    requires UniqueRows(rows) && Distinct(scope)
             && forall i | 0 <= i < |rows| :: Key(rows[i].period, rows[i].marketplace) in scope
    ensures SheetTotal(scope, ByKey(rows), w) == Total(rows, w)
    decreases |rows|
  {
    hide Weighted;
    if rows == [] {
      EmptySheet(scope, w);
    } else {
      var init, last := rows[..|rows| - 1], rows[|rows| - 1];
      assert forall i | 0 <= i < |init| :: init[i] == rows[i];
      MonthsConserve(init, scope, w);
      ByKeyHas(init, Key(last.period, last.marketplace));
      SheetTotalUpdated(scope, ByKey(init), Key(last.period, last.marketplace), Group(last.currency, last.amounts), w);
    }
  }

  /** uniqueScope of the scope's own quarters or years. */
  ghost predicate RolledScope(scope: seq<Key>, months: seq<Key>, kind: Kind) {
    Distinct(scope) && forall k: Key :: k in scope <==>
        exists i | 0 <= i < |months| :: k == Key(Label(months[i].period, kind), months[i].marketplace)
  }

  function GroupsTotal(sheet: seq<Group>, w: Weights): int {
    if sheet == [] then 0 else GroupsTotal(sheet[..|sheet| - 1], w) + Value(sheet[|sheet| - 1].amounts, w)
  }

  lemma {:induction false} ZeroRowIsWorthNothing(w: Weights, n: nat)
    requires n <= 16
    ensures Weighted(seq(16, _ => 0), w, n) == 0
  {
    if n > 0 {
      ZeroRowIsWorthNothing(w, n - 1);
    }
  }

  lemma {:induction false} DenseTotal(scope: seq<Key>, groups: Groups, w: Weights)
    requires forall k | k in groups :: k in scope
    ensures Dense(scope, groups).Ok? && GroupsTotal(Dense(scope, groups).value, w) == SheetTotal(scope, groups, w)
  {
    SheetOf(scope, groups, w);
  }

  function SheetRows(scope: seq<Key>, groups: Groups): (rows: seq<Group>)
    ensures |rows| == |scope|
  {
    seq(|scope|, i requires 0 <= i < |scope| =>
      if scope[i] in groups then groups[scope[i]] else Group("", seq(16, _ => 0)))
  }

  lemma {:induction false} SheetOf(scope: seq<Key>, groups: Groups, w: Weights)
    ensures GroupsTotal(SheetRows(scope, groups), w) == SheetTotal(scope, groups, w)
  {
    hide Weighted;
    if scope != [] {
      var init := scope[..|scope| - 1];
      SheetOf(init, groups, w);
      assert SheetRows(scope, groups)[..|init|] == SheetRows(init, groups);
      ZeroRowIsWorthNothing(w, 16);
    }
  }

  /** A sheet has one row for each key of its scope, in that order: the key's group, or zeros; and a group
      outside the scope is refused. */
  lemma DenseExactly(scope: seq<Key>, groups: Groups)
    ensures Dense(scope, groups).Ok? <==> forall k | k in groups :: k in scope
    ensures Dense(scope, groups).Ok? ==>
              var sheet := Dense(scope, groups).value;
              && |sheet| == |scope|
              && forall i | 0 <= i < |scope| ::
                   if scope[i] in groups then sheet[i] == groups[scope[i]]
                   else sheet[i].amounts == ZEROS && sheet[i].currency == ""
  {
  }

  /** SUM of the absolute differences of the checked columns' totals. */
  function Differences(left: seq<Group>, right: seq<Group>, columns: seq<Weights>): int {
    if columns == [] then 0
    else
      var d := GroupsTotal(left, columns[0]) - GroupsTotal(right, columns[0]);
      (if d < 0 then -d else d) + Differences(left, right, columns[1..])
  }

  /** IF(SUM(…)<0.00000001,"PASS","FAIL"), in units of 1e-8. */
  function Verdict(left: seq<Group>, right: seq<Group>, columns: seq<Weights>): string {
    if Differences(left, right, columns) < 1 then "PASS" else "FAIL"
  }

  lemma {:induction false} NoDifferences(left: seq<Group>, right: seq<Group>, columns: seq<Weights>)
    requires forall w: Weights :: GroupsTotal(left, w) == GroupsTotal(right, w)
    ensures Differences(left, right, columns) == 0
  {
    if columns != [] {
      NoDifferences(left, right, columns[1..]);
    }
  }

  predicate SameTotals(left: seq<Group>, right: seq<Group>, columns: seq<Weights>) {
    forall i | 0 <= i < |columns| :: GroupsTotal(left, columns[i]) == GroupsTotal(right, columns[i])
  }

  lemma {:induction false} DifferencesExactly(left: seq<Group>, right: seq<Group>, columns: seq<Weights>)
    ensures Differences(left, right, columns) >= 0
    ensures Differences(left, right, columns) == 0 <==> SameTotals(left, right, columns)
  {
    hide GroupsTotal;
    if columns != [] {
      DifferencesExactly(left, right, columns[1..]);
      assert forall i | 0 < i < |columns| :: columns[i] == columns[1..][i - 1];
      assert forall i | 0 <= i < |columns[1..]| :: columns[1..][i] == columns[i + 1];
    }
  }

  /** The check passes exactly when both sheets have the same total in every checked column. */
  lemma VerdictExactly(left: seq<Group>, right: seq<Group>, columns: seq<Weights>)
    ensures Verdict(left, right, columns) == "PASS" <==> SameTotals(left, right, columns)
    ensures Verdict(left, right, columns) == "FAIL" <==> !SameTotals(left, right, columns)
  {
    hide GroupsTotal, Differences, SameTotals;
    DifferencesExactly(left, right, columns);
    assert "PASS"[0] != "FAIL"[0];
  }

  lemma ScopeCovers(rows: seq<Row>, months: seq<Key>, kind: Kind, scope: seq<Key>)
    requires RolledScope(scope, months, kind) && Roll(rows, kind).Ok?
    requires forall i | 0 <= i < |rows| :: Key(rows[i].period, rows[i].marketplace) in months
    ensures forall k | k in Roll(rows, kind).value :: k in scope
  {
    hide Roll;
    RollIs(rows, kind);
    forall k | k in Roll(rows, kind).value ensures k in scope {
      assert HasKey(rows, kind, k);
      var i :| 0 <= i < |rows| && KeyOf(rows[i], kind) == k;
      var j :| 0 <= j < |months| && months[j] == Key(rows[i].period, rows[i].marketplace);
      assert k == Key(Label(months[j].period, kind), months[j].marketplace);
    }
  }

  /** Whenever the monthly sheet can be filled and the months roll up, the quarter and year sheets can be
      filled as well, and the workbook's conservation checks against the months evaluate to PASS, for these
      and any other columns. */
  lemma ConservationChecksPass(rows: seq<Row>, months: seq<Key>, kind: Kind, scope: seq<Key>, columns: seq<Weights>)
    requires UniqueRows(rows) && Distinct(months) && Dense(months, ByKey(rows)).Ok?
    requires RolledScope(scope, months, kind) && Roll(rows, kind).Ok?
    ensures Dense(scope, Roll(rows, kind).value).Ok?
    ensures Verdict(Dense(months, ByKey(rows)).value, Dense(scope, Roll(rows, kind).value).value, columns) == "PASS"
  {
    hide Roll, GroupsTotal, SheetTotal, Total;
    forall i | 0 <= i < |rows| ensures Key(rows[i].period, rows[i].marketplace) in months {
      ByKeyHas(rows, Key(rows[i].period, rows[i].marketplace));
    }
    ScopeCovers(rows, months, kind, scope);
    forall w: Weights
      ensures Dense(scope, Roll(rows, kind).value).Ok?
      ensures GroupsTotal(Dense(months, ByKey(rows)).value, w)
              == GroupsTotal(Dense(scope, Roll(rows, kind).value).value, w)
    {
      MonthsConserve(rows, months, w);
      RollConserves(rows, kind, scope, w);
      DenseTotal(months, ByKey(rows), w);
      DenseTotal(scope, Roll(rows, kind).value, w);
    }
    NoDifferences(Dense(months, ByKey(rows)).value, Dense(scope, Roll(rows, kind).value).value, columns);
  }
}
