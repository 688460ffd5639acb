/** convertCurrency and the windowed book a calculation loads. Dates are day numbers. */
module FxConversion {
  import opened Prelude
  import opened Decimals

  /** cny_per_unit, in units of 1e-8; the tables hold positive rates only. */
  type Rate = n: int | n > 0 witness 1

  datatype Quote = Quote(id: nat, day: int, currency: string, cny: Rate)

  datatype Override = Override(id: nat, currency: string, validFrom: int, validTo: int, cny: Rate)

  datatype DayStatus = Open | NonTrading | Unknown

  /** The current quotes and overrides, and what is known of each market day. */
  datatype Book = Book(official: seq<Quote>, overrides: seq<Override>, days: map<int, DayStatus>)

  function StatusOf(book: Book, day: int): DayStatus {
    if day in book.days then book.days[day] else Unknown
  }

  datatype Source = Official(quote: nat) | Manual(override: nat) | Identity

  datatype Located = Located(cny: Rate, source: Source)

  datatype Error = InvalidMaximum | AmbiguousOverride(currency: string, day: int)
                 | AmbiguousQuote(currency: string, day: int)

  datatype Conversion =
    | Converted(hit: int, fallback: nat, rate: int, quotes: seq<nat>, overrides: seq<nat>)
    | NoQuote(hitIfAny: Option<int>)
    | DataGap(gap: int, behind: nat, quotes: seq<nat>, overrides: seq<nat>)
    | InvalidDate
    | InvalidCurrency

  // ---- one day -------------------------------------------------------------------------------

  function QuotesAt(quotes: seq<Quote>, day: int): seq<Quote> {
    if quotes == [] then []
    else if quotes[0].day == day then [quotes[0]] + QuotesAt(quotes[1..], day)
    else QuotesAt(quotes[1..], day)
  }

  function QuotesFor(quotes: seq<Quote>, currency: string): seq<Quote> {
    if quotes == [] then []
    else if quotes[0].currency == currency then [quotes[0]] + QuotesFor(quotes[1..], currency)
    else QuotesFor(quotes[1..], currency)
  }

  predicate Covers(o: Override, currency: string, day: int) {
    o.currency == currency && o.validFrom <= day <= o.validTo
  }

  function Covering(overrides: seq<Override>, currency: string, day: int): seq<Override> {
    if overrides == [] then []
    else if Covers(overrides[0], currency, day) then [overrides[0]] + Covering(overrides[1..], currency, day)
    else Covering(overrides[1..], currency, day)
  }

  function FindOverride(overrides: seq<Override>, currency: string, day: int): Result<Option<Located>, Error> {
    var matches := Covering(overrides, currency, day);
    if |matches| > 1 then Err(AmbiguousOverride(currency, day))
    else if matches == [] then Ok(None)
    else Ok(Some(Located(matches[0].cny, Manual(matches[0].id))))
  }

  function Locate(book: Book, currency: string, day: int): Result<Option<Located>, Error> {
    if currency == "CNY" then Ok(Some(Located(UNIT, Identity)))
    else
      var official := QuotesFor(QuotesAt(book.official, day), currency);
      if |official| > 1 then Err(AmbiguousQuote(currency, day))
      else if official != [] then Ok(Some(Located(official[0].cny, Official(official[0].id))))
      else FindOverride(book.overrides, currency, day)
  }

  function QuoteIds(l: Option<Located>): seq<nat> {
    if l.Some? && l.value.source.Official? then [l.value.source.quote] else []
  }

  function OverrideIds(l: Option<Located>): seq<nat> {
    if l.Some? && l.value.source.Manual? then [l.value.source.override] else []
  }

  /** What the loop does on a day that is not proven to be NON_TRADING. */
  function ConvertAt(book: Book, day: int, fallback: nat, from: string, to: string): Result<Conversion, Error> {
    if StatusOf(book, day).Unknown? && QuotesAt(book.official, day) == [] then Ok(NoQuote(Some(day)))
    else
      match Locate(book, from, day)
      case Err(error) => Err(error)
      case Ok(a) =>
        match Locate(book, to, day)
        case Err(error) => Err(error)
        case Ok(b) =>
          if a.None? || b.None? then
            Ok(DataGap(day, fallback, QuoteIds(a) + QuoteIds(b), OverrideIds(a) + OverrideIds(b)))
          else Ok(Converted(day, fallback, Round(a.value.cny as real / b.value.cny as real * UNIT as real),
                            QuoteIds(a) + QuoteIds(b), OverrideIds(a) + OverrideIds(b)))
  }

  // ---- convertCurrency -----------------------------------------------------------------------

  predicate IsLetter(c: char) {
    'A' <= c <= 'Z'
  }

  /** currencyCode, of an upper-cased code. */
  predicate IsCurrency(code: string) {
    |code| == 3 && forall i | 0 <= i < 3 :: IsLetter(code[i])
  }

  const MAXIMUM_DAYS := 10

  /** The first day from which on the calendar does not prove NON_TRADING. */
  function FirstCandidate(book: Book, day: int, fallback: nat, maximum: nat): (n: Option<nat>)
    ensures n.Some? ==> fallback <= n.value <= maximum && !StatusOf(book, day + n.value).NonTrading?
                        && forall d | day + fallback <= d < day + n.value :: StatusOf(book, d).NonTrading?
    ensures n.None? ==> forall d | day + fallback <= d <= day + maximum :: StatusOf(book, d).NonTrading?
    decreases maximum - fallback
  {
    if fallback > maximum then None
    else if !StatusOf(book, day + fallback).NonTrading? then Some(fallback)
    else FirstCandidate(book, day, fallback + 1, maximum)
  }

  function Convert(book: Book, requested: Option<int>, from: string, to: string, maximum: int)
    : Result<Conversion, Error>
  {
    if maximum < 0 || maximum > MAXIMUM_DAYS then Err(InvalidMaximum)
    else if requested.None? then Ok(InvalidDate)
    else if !IsCurrency(from) || !IsCurrency(to) then Ok(InvalidCurrency)
    else if from == to then Ok(Converted(requested.value, 0, UNIT, [], []))
    else
      match FirstCandidate(book, requested.value, 0, maximum)
      case None => Ok(NoQuote(None))
      case Some(n) => ConvertAt(book, requested.value + n, n, from, to)
  }

  /** convertCurrency's loop over the candidate days. */
  method ConvertCurrency(book: Book, requested: Option<int>, from: string, to: string, maximum: int)
    returns (r: Result<Conversion, Error>)
    ensures r == Convert(book, requested, from, to, maximum)
  {
    if maximum < 0 || maximum > MAXIMUM_DAYS { return Err(InvalidMaximum); }
    if requested.None? { return Ok(InvalidDate); }
    var day := requested.value;
    if !IsCurrency(from) || !IsCurrency(to) { return Ok(InvalidCurrency); }
    if from == to { return Ok(Converted(day, 0, UNIT, [], [])); }
    for fallback := 0 to maximum + 1
      invariant FirstCandidate(book, day, 0, maximum) == FirstCandidate(book, day, fallback, maximum)
    {
      var candidate := day + fallback;
      if StatusOf(book, candidate).NonTrading? { continue; }
      return ConvertAt(book, candidate, fallback, from, to);
    }
    return Ok(NoQuote(None));
  }

  /** What is refused before anything is looked up, in this order: a bound outside 0 to 10 days, no date, a code
      that is not three capital letters; and a currency is its own worth. */
  lemma RefusedInputs(book: Book, requested: Option<int>, from: string, to: string, maximum: int)
    ensures var r := Convert(book, requested, from, to, maximum);
            var codes := ThreeCapitals(from) && ThreeCapitals(to);
            && (r == Err(InvalidMaximum) <==> maximum < 0 || maximum > 10)
            && (r == Ok(InvalidDate) <==> 0 <= maximum <= 10 && requested == None)
            && (r == Ok(InvalidCurrency) <==> 0 <= maximum <= 10 && requested != None && !codes)
            && (0 <= maximum <= 10 && requested != None && codes && from == to ==>
                  r == Ok(Converted(requested.value, 0, 1_0000_0000, [], [])))
  {
    hide ConvertAt, FirstCandidate;
    CurrencyCodes(from);
    CurrencyCodes(to);
    if 0 <= maximum <= MAXIMUM_DAYS && requested.Some? {
      match FirstCandidate(book, requested.value, 0, maximum)
      case None =>
      case Some(n) => LookupsAnswer(book, requested.value + n, n, from, to);
    }
  }

  lemma LookupsAnswer(book: Book, day: int, fallback: nat, from: string, to: string)
    ensures ConvertAt(book, day, fallback, from, to) !in
            {Err(InvalidMaximum), Ok(InvalidDate), Ok(InvalidCurrency)}
  {
  }

  const CAPITALS := "ABCDEFGHIJKLMNOPQRSTUVWXYZ"

  predicate ThreeCapitals(code: string) {
    |code| == 3 && forall i | 0 <= i < 3 :: code[i] in CAPITALS
  }

  lemma CurrencyCodes(code: string)
    ensures IsCurrency(code) <==> ThreeCapitals(code)
  {
    forall i | 0 <= i < |code| ensures IsLetter(code[i]) <==> code[i] in CAPITALS { Capital(code[i]); }
  }

  lemma Capital(c: char)
    ensures IsLetter(c) <==> c in CAPITALS
  {
    if IsLetter(c) { CapitalsInOrder((c - 'A') as nat); }
    if k: nat :| k < |CAPITALS| && CAPITALS[k] == c { CapitalsInOrder(k); }
  }

  lemma CapitalsInOrder(k: nat)
    requires k < 26
    ensures |CAPITALS| == 26 && CAPITALS[k] == 'A' + k as char
  {
    var u := CAPITALS;
    assert u[0] == 'A' && u[1] == 'B' && u[2] == 'C' && u[3] == 'D' && u[4] == 'E' && u[5] == 'F';
    assert u[6] == 'G' && u[7] == 'H' && u[8] == 'I' && u[9] == 'J' && u[10] == 'K' && u[11] == 'L';
    assert u[12] == 'M' && u[13] == 'N' && u[14] == 'O' && u[15] == 'P' && u[16] == 'Q' && u[17] == 'R';
    assert u[18] == 'S' && u[19] == 'T' && u[20] == 'U' && u[21] == 'V' && u[22] == 'W' && u[23] == 'X';
    assert u[24] == 'Y' && u[25] == 'Z';
  }

  // ---- the windowed book ---------------------------------------------------------------------

  function QuotesBetween(quotes: seq<Quote>, from: int, to: int): seq<Quote> {
    if quotes == [] then []
    else if from <= quotes[0].day <= to then [quotes[0]] + QuotesBetween(quotes[1..], from, to)
    else QuotesBetween(quotes[1..], from, to)
  }

  function OverridesBetween(overrides: seq<Override>, from: int, to: int): seq<Override> {
    if overrides == [] then []
    else if overrides[0].validTo >= from && overrides[0].validFrom <= to
    then [overrides[0]] + OverridesBetween(overrides[1..], from, to)
    else OverridesBetween(overrides[1..], from, to)
  }

  /** The overrides of a run's manifest, if it froze them. */
  function Visible(overrides: seq<Override>, frozen: Option<set<nat>>): seq<Override> {
    if overrides == [] then []
    else if frozen.None? || overrides[0].id in frozen.value then [overrides[0]] + Visible(overrides[1..], frozen)
    else Visible(overrides[1..], frozen)
  }

  /** The tables a run may use, in full. */
  function WholeBook(tables: Book, frozen: Option<set<nat>>): Book {
    tables.(overrides := Visible(tables.overrides, frozen))
  }

  /** loadFxBook: from the first fact's day to ten days after the last one's. */
  function LoadFxBook(tables: Book, from: int, to: int, frozen: Option<set<nat>>): Book {
    Book(QuotesBetween(tables.official, from, to + MAXIMUM_DAYS),
         Visible(OverridesBetween(tables.overrides, from, to + MAXIMUM_DAYS), frozen),
         map d | d in tables.days && from <= d <= to + MAXIMUM_DAYS :: tables.days[d])
  }

  lemma {:induction false} SameQuotes(quotes: seq<Quote>, from: int, to: int, day: int)
    requires from <= day <= to
    ensures QuotesAt(QuotesBetween(quotes, from, to), day) == QuotesAt(quotes, day)
  {
    if quotes != [] {
      SameQuotes(quotes[1..], from, to, day);
      var rest := QuotesBetween(quotes[1..], from, to);
      assert ([quotes[0]] + rest)[1..] == rest;
    }
  }

  lemma {:induction false} SameOverrides(overrides: seq<Override>, frozen: Option<set<nat>>, from: int, to: int,
                                         currency: string, day: int)
    requires from <= day <= to
    ensures Covering(Visible(OverridesBetween(overrides, from, to), frozen), currency, day)
            == Covering(Visible(overrides, frozen), currency, day)
  {
    if overrides != [] {
      SameOverrides(overrides[1..], frozen, from, to, currency, day);
      var kept := OverridesBetween(overrides[1..], from, to);
      assert ([overrides[0]] + kept)[1..] == kept;
      assert ([overrides[0]] + Visible(kept, frozen))[1..] == Visible(kept, frozen);
      assert ([overrides[0]] + Visible(overrides[1..], frozen))[1..] == Visible(overrides[1..], frozen);
    }
  }

  lemma SameLocation(tables: Book, from: int, to: int, frozen: Option<set<nat>>, day: int, currency: string)
    requires from <= day <= to + MAXIMUM_DAYS
    ensures Locate(LoadFxBook(tables, from, to, frozen), currency, day)
            == Locate(WholeBook(tables, frozen), currency, day)
  {
    hide QuotesAt, QuotesBetween, OverridesBetween, Visible, Covering, QuotesFor;
    SameQuotes(tables.official, from, to + MAXIMUM_DAYS, day);
    SameOverrides(tables.overrides, frozen, from, to + MAXIMUM_DAYS, currency, day);
  }

  lemma SameDay(tables: Book, from: int, to: int, frozen: Option<set<nat>>, day: int, fallback: nat, a: string,
                b: string)
    requires from <= day <= to + MAXIMUM_DAYS
    ensures var w, whole := LoadFxBook(tables, from, to, frozen), WholeBook(tables, frozen);
            StatusOf(w, day) == StatusOf(whole, day)
            && ConvertAt(w, day, fallback, a, b) == ConvertAt(whole, day, fallback, a, b)
  {
    hide QuotesAt, QuotesBetween, OverridesBetween, Visible, Locate, Round, QuoteIds, OverrideIds;
    SameQuotes(tables.official, from, to + MAXIMUM_DAYS, day);
    SameLocation(tables, from, to, frozen, day, a);
    SameLocation(tables, from, to, frozen, day, b);
  }

  lemma {:induction false} SameCandidate(tables: Book, from: int, to: int, frozen: Option<set<nat>>, day: int,
                                         fallback: nat, maximum: nat)
    requires from <= day <= to && maximum <= MAXIMUM_DAYS
    ensures FirstCandidate(LoadFxBook(tables, from, to, frozen), day, fallback, maximum)
            == FirstCandidate(WholeBook(tables, frozen), day, fallback, maximum)
    decreases maximum - fallback
  {
    if fallback <= maximum {
      SameDay(tables, from, to, frozen, day + fallback, fallback, "CNY", "CNY");
      SameCandidate(tables, from, to, frozen, day, fallback + 1, maximum);
    }
  }

  /** Every conversion of a day in the window is the one the whole tables give, errors included. */
  lemma WindowIsEnough(tables: Book, from: int, to: int, frozen: Option<set<nat>>, day: int, a: string, b: string,
                       maximum: int)
    requires from <= day <= to
    ensures Convert(LoadFxBook(tables, from, to, frozen), Some(day), a, b, maximum)
            == Convert(WholeBook(tables, frozen), Some(day), a, b, maximum)
  {
    hide ConvertAt, LoadFxBook, WholeBook;
    if 0 <= maximum <= MAXIMUM_DAYS {
      SameCandidate(tables, from, to, frozen, day, 0, maximum);
      var n := FirstCandidate(WholeBook(tables, frozen), day, 0, maximum);
      if n.Some? {
        SameDay(tables, from, to, frozen, day + n.value, n.value, a, b);
      }
    }
  }

  // ---- a calculation run ---------------------------------------------------------------------

  datatype Fact = Fact(fxDay: int, currency: string)

  function Earliest(facts: seq<Fact>): (d: int)
    requires facts != []
    ensures forall f | f in facts :: d <= f.fxDay
  {
    if |facts| == 1 then facts[0].fxDay
    else
      var d := Earliest(facts[1..]);
      assert facts == [facts[0]] + facts[1..];
      if facts[0].fxDay < d then facts[0].fxDay else d
  }

  function Latest(facts: seq<Fact>): (d: int)
    requires facts != []
    ensures forall f | f in facts :: f.fxDay <= d
  {
    if |facts| == 1 then facts[0].fxDay
    else
      var d := Latest(facts[1..]);
      assert facts == [facts[0]] + facts[1..];
      if facts[0].fxDay > d then facts[0].fxDay else d
  }

  const EMPTY_BOOK := Book([], [], map[])

  /** The book calculateRun works with. */
  function RunBook(tables: Book, facts: seq<Fact>, frozen: Option<set<nat>>): Book {
    if facts == [] then EMPTY_BOOK else LoadFxBook(tables, Earliest(facts), Latest(facts), frozen)
  }

  /** Every fact of a run converts as if the run had read the whole tables. */
  lemma EveryFactConvertsAlike(tables: Book, facts: seq<Fact>, frozen: Option<set<nat>>, fact: Fact)
    requires fact in facts
    ensures Convert(RunBook(tables, facts, frozen), Some(fact.fxDay), fact.currency, "CNY", MAXIMUM_DAYS)
            == Convert(WholeBook(tables, frozen), Some(fact.fxDay), fact.currency, "CNY", MAXIMUM_DAYS)
  {
    WindowIsEnough(tables, Earliest(facts), Latest(facts), frozen, fact.fxDay, fact.currency, "CNY", MAXIMUM_DAYS);
  }

  // ---- what an OK result means ---------------------------------------------------------------

  /** The hit is the first day from the requested one on that is not proven to be NON_TRADING. */
  predicate HitsFirstTradingDay(book: Book, requested: int, c: Conversion)
    requires c.Converted?
  {
    && c.hit == requested + c.fallback && !StatusOf(book, c.hit).NonTrading?
    && forall d | requested <= d < c.hit :: StatusOf(book, d).NonTrading?
  }

  /** That holds of a successful conversion exactly when the currencies differ, or the requested day is itself
      not proven to be NON_TRADING: converting a currency into itself asks no calendar. */
  lemma HitDayExactly(book: Book, requested: int, from: string, to: string, maximum: int)
    requires Convert(book, Some(requested), from, to, maximum).Ok?
    requires Convert(book, Some(requested), from, to, maximum).value.Converted?
    ensures var c := Convert(book, Some(requested), from, to, maximum).value;
            && 0 <= c.fallback <= maximum <= MAXIMUM_DAYS
            && (HitsFirstTradingDay(book, requested, c) <==> from != to || !StatusOf(book, requested).NonTrading?)
  {
    if from != to {
      var n := FirstCandidate(book, requested, 0, maximum);
      var c := Convert(book, Some(requested), from, to, maximum).value;
      assert c.fallback == n.value;
    }
  }

  /** Such a day is hit: one yuan is converted at rate one on a day proven to be NON_TRADING. */
  lemma IdentityHitsClosedDay()
    ensures var book := Book([], [], map[1 := NonTrading]);
            var r := Convert(book, Some(1), "CNY", "CNY", MAXIMUM_DAYS);
            r == Ok(Converted(1, 0, UNIT, [], [])) && !HitsFirstTradingDay(book, 1, r.value)
  {
  }

  /** A missing quote is never read as a closed market: without a calendar entry and without any quote the
      search stops there instead of moving on. */
  lemma UnknownDayStopsTheSearch(book: Book, requested: int, from: string, to: string, maximum: int, n: nat)
    requires 0 <= n <= maximum <= MAXIMUM_DAYS && IsCurrency(from) && IsCurrency(to) && from != to
    requires forall d | requested <= d < requested + n :: StatusOf(book, d).NonTrading?
    requires StatusOf(book, requested + n).Unknown? && QuotesAt(book.official, requested + n) == []
    ensures Convert(book, Some(requested), from, to, maximum) == Ok(NoQuote(Some(requested + n)))
  {
    var found := FirstCandidate(book, requested, 0, maximum);
    assert found == Some(n);
  }

  // ---- where a rate comes from ---------------------------------------------------------------

  predicate IsQuote(book: Book, i: int, currency: string, day: int) {
    0 <= i < |book.official| && book.official[i].day == day && book.official[i].currency == currency
  }

  predicate IsOverride(book: Book, i: int, currency: string, day: int) {
    0 <= i < |book.overrides| && book.overrides[i].currency == currency
    && book.overrides[i].validFrom <= day <= book.overrides[i].validTo
  }

  ghost predicate NoQuotes(book: Book, currency: string, day: int) {
    forall i :: !IsQuote(book, i, currency, day)
  }

  ghost predicate NoOverrides(book: Book, currency: string, day: int) {
    forall i :: !IsOverride(book, i, currency, day)
  }

  ghost predicate OnlyQuote(book: Book, i: int, currency: string, day: int) {
    IsQuote(book, i, currency, day) && forall j | j != i :: !IsQuote(book, j, currency, day)
  }

  ghost predicate OnlyOverride(book: Book, i: int, currency: string, day: int) {
    IsOverride(book, i, currency, day) && forall j | j != i :: !IsOverride(book, j, currency, day)
  }

  lemma NextQuote(book: Book, i: int, currency: string, day: int)
    requires book.official != []
    ensures IsQuote(book.(official := book.official[1..]), i, currency, day) <==>
            i >= 0 && IsQuote(book, i + 1, currency, day)
  {
  }

  lemma NextOverride(book: Book, i: int, currency: string, day: int)
    requires book.overrides != []
    ensures IsOverride(book.(overrides := book.overrides[1..]), i, currency, day)
            <==> i >= 0 && IsOverride(book, i + 1, currency, day)
  {
  }

  lemma {:induction false} QuotesFound(book: Book, currency: string, day: int) returns (i: int, j: int)
    ensures var found := QuotesFor(QuotesAt(book.official, day), currency);
            && (found == [] ==> NoQuotes(book, currency, day))
            && (|found| == 1 ==> OnlyQuote(book, i, currency, day) && found[0] == book.official[i])
            && (|found| > 1 ==> i < j && IsQuote(book, i, currency, day) && IsQuote(book, j, currency, day))
            && (found != [] ==> IsQuote(book, i, currency, day))
    decreases |book.official|
  {
    i, j := 0, 0;
    if book.official != [] {
      var first, rest := book.official[0], book.(official := book.official[1..]);
      var others := QuotesAt(rest.official, day);
      assert ([first] + others)[1..] == others;
      var k, l := QuotesFound(rest, currency, day);
      forall n ensures IsQuote(rest, n, currency, day) <==> n >= 0 && IsQuote(book, n + 1, currency, day) {
        NextQuote(book, n, currency, day);
      }
      assert forall n | n > 0 :: IsQuote(book, n, currency, day) <==> IsQuote(rest, n - 1, currency, day);
      var here := IsQuote(book, 0, currency, day);
      i, j := if here then 0 else k + 1, if here then k + 1 else l + 1;
    }
  }

  lemma {:induction false} OverridesFound(book: Book, currency: string, day: int) returns (i: int, j: int)
    ensures var found := Covering(book.overrides, currency, day);
            && (found == [] ==> NoOverrides(book, currency, day))
            && (|found| == 1 ==> OnlyOverride(book, i, currency, day) && found[0] == book.overrides[i])
            && (|found| > 1 ==> i < j && IsOverride(book, i, currency, day) && IsOverride(book, j, currency, day))
            && (found != [] ==> IsOverride(book, i, currency, day))
    decreases |book.overrides|
  {
    i, j := 0, 0;
    if book.overrides != [] {
      var rest := book.(overrides := book.overrides[1..]);
      var k, l := OverridesFound(rest, currency, day);
      forall n ensures IsOverride(rest, n, currency, day) <==> n >= 0 && IsOverride(book, n + 1, currency, day) {
        NextOverride(book, n, currency, day);
      }
      assert forall n | n > 0 :: IsOverride(book, n, currency, day) <==> IsOverride(rest, n - 1, currency, day);
      var here := IsOverride(book, 0, currency, day);
      i, j := if here then 0 else k + 1, if here then k + 1 else l + 1;
    }
  }

  /** Where a rate comes from: the only official quote of that very day, or without one the only override in
      force on it. Two of either are refused, and without any there is no rate. */
  lemma LocatedRate(book: Book, currency: string, day: int)
    requires currency != "CNY"
    ensures match Locate(book, currency, day)
            case Err(AmbiguousQuote(c, d)) => c == currency && d == day
              && exists i, j | i < j :: IsQuote(book, i, currency, day) && IsQuote(book, j, currency, day)
            case Err(AmbiguousOverride(c, d)) => c == currency && d == day && NoQuotes(book, currency, day)
              && exists i, j | i < j :: IsOverride(book, i, currency, day) && IsOverride(book, j, currency, day)
            case Err(InvalidMaximum) => false
            case Ok(None) => NoQuotes(book, currency, day) && NoOverrides(book, currency, day)
            case Ok(Some(l)) =>
              match l.source
              case Official(id) => exists i | OnlyQuote(book, i, currency, day) ::
                  book.official[i].id == id && book.official[i].cny == l.cny
              case Manual(id) => NoQuotes(book, currency, day)
                && exists i | OnlyOverride(book, i, currency, day) ::
                     book.overrides[i].id == id && book.overrides[i].cny == l.cny
              case Identity => false
  {
    hide NoQuotes, NoOverrides, OnlyQuote, OnlyOverride, IsQuote, IsOverride, QuotesAt, QuotesFor, Covering;
    var i, j := QuotesFound(book, currency, day);
    var k, l := OverridesFound(book, currency, day);
  }

  /** The value of one unit in CNY on a day, with the ids of the quote or override it is taken from. */
  ghost predicate WorthOn(book: Book, currency: string, day: int, cny: Rate, quotes: seq<nat>, overrides: seq<nat>) {
    || (currency == "CNY" && cny == UNIT && quotes == [] && overrides == [])
    || (currency != "CNY" && overrides == []
        && exists i | OnlyQuote(book, i, currency, day) ::
             book.official[i].cny == cny && quotes == [book.official[i].id])
    || (currency != "CNY" && quotes == [] && NoQuotes(book, currency, day)
        && exists i | OnlyOverride(book, i, currency, day) ::
             book.overrides[i].cny == cny && overrides == [book.overrides[i].id])
  }

  ghost predicate Worthless(book: Book, currency: string, day: int) {
    currency != "CNY" && NoQuotes(book, currency, day) && NoOverrides(book, currency, day)
  }

  ghost predicate Ambiguous(book: Book, currency: string, day: int) {
    currency != "CNY"
    && ((exists i, j | i < j :: IsQuote(book, i, currency, day) && IsQuote(book, j, currency, day))
        || (NoQuotes(book, currency, day)
            && exists i, j | i < j :: IsOverride(book, i, currency, day) && IsOverride(book, j, currency, day)))
  }

  lemma LocatedIsWorth(book: Book, currency: string, day: int)
    ensures Locate(book, currency, day).Err? ==> Ambiguous(book, currency, day)
    ensures Locate(book, currency, day) == Ok(None) ==> Worthless(book, currency, day)
    ensures Locate(book, currency, day).Ok? && Locate(book, currency, day).value.Some? ==>
              var l := Locate(book, currency, day).value;
              WorthOn(book, currency, day, l.value.cny, QuoteIds(l), OverrideIds(l))
  {
    hide NoQuotes, NoOverrides, OnlyQuote, OnlyOverride, IsQuote, IsOverride, QuotesAt, QuotesFor, FindOverride;
    if currency != "CNY" { LocatedRate(book, currency, day); }
  }

  /** What converting means between two currencies: at the first day that is not proven to be NON_TRADING both
      have a value in CNY, and the rate is the quotient of the two, rounded to the nearest unit. Only the quotes
      and overrides it was computed from are recorded, those of the source currency first. */
  lemma ConversionRate(book: Book, requested: int, from: string, to: string, maximum: int)
    returns (x: Rate, y: Rate, quotes: (seq<nat>, seq<nat>), overrides: (seq<nat>, seq<nat>))
    requires from != to && Convert(book, Some(requested), from, to, maximum).Ok?
    requires Convert(book, Some(requested), from, to, maximum).value.Converted?
    ensures var c := Convert(book, Some(requested), from, to, maximum).value;
            && WorthOn(book, from, c.hit, x, quotes.0, overrides.0)
            && WorthOn(book, to, c.hit, y, quotes.1, overrides.1)
            && c.quotes == quotes.0 + quotes.1 && c.overrides == overrides.0 + overrides.1
            && WithinHalf(c.rate * y - x * UNIT, y)
            && (to == "CNY" ==> c.rate == x && c.quotes == quotes.0 && c.overrides == overrides.0)
  {
    hide Locate, WorthOn, Round, QuoteIds, OverrideIds;
    var c := Convert(book, Some(requested), from, to, maximum).value;
    LocatedIsWorth(book, from, c.hit);
    LocatedIsWorth(book, to, c.hit);
    var a, b := Locate(book, from, c.hit).value, Locate(book, to, c.hit).value;
    x, y := a.value.cny, b.value.cny;
    quotes, overrides := (QuoteIds(a), QuoteIds(b)), (OverrideIds(a), OverrideIds(b));
    QuotientIsNearest(x, y);
    if to == "CNY" {
      WorthOfYuan(book, c.hit, y, quotes.1, overrides.1);
      assert quotes.0 + [] == quotes.0 && overrides.0 + [] == overrides.0;
    }
  }

  lemma WorthOfYuan(book: Book, day: int, cny: Rate, quotes: seq<nat>, overrides: seq<nat>)
    requires WorthOn(book, "CNY", day, cny, quotes, overrides)
    ensures cny == UNIT && quotes == [] && overrides == []
  {
  }

  lemma QuotientIsNearest(x: int, y: int)
    requires x > 0 && y > 0
    ensures var rate := Round(x as real / y as real * UNIT as real);
            WithinHalf(rate * y - x * UNIT, y) && (y == UNIT ==> rate == x)
  {
    hide Round, WithinHalf;
    var q, u := x as real / y as real, UNIT as real;
    assert q * y as real == x as real;
    assert q * u * y as real == (x * UNIT) as real by {
      Regroup(u, q, y as real, x as real);
      assert q * u == u * q && (x * UNIT) as real == u * x as real;
    }
    RoundOfFraction(q * u, x * UNIT, y);
    if y == UNIT {
      assert q * u == x as real;
      RoundOfAmount(x);
    }
  }

  /** No day in reach is a candidate. */
  predicate AllClosed(book: Book, requested: int, maximum: nat) {
    forall d | requested <= d <= requested + maximum :: d in book.days && book.days[d].NonTrading?
  }

  predicate FirstOpen(book: Book, requested: int, day: int) {
    && requested <= day && !(day in book.days && book.days[day].NonTrading?)
    && forall d | requested <= d < day :: d in book.days && book.days[d].NonTrading?
  }

  /** A day of which neither the calendar nor any quote knows anything. */
  predicate NothingKnown(book: Book, day: int) {
    (day in book.days ==> book.days[day].Unknown?) && forall i | 0 <= i < |book.official| :: book.official[i].day != day
  }

  lemma {:induction false} NoQuoteThatDay(quotes: seq<Quote>, day: int)
    ensures QuotesAt(quotes, day) == [] <==> forall i | 0 <= i < |quotes| :: quotes[i].day != day
  {
    if quotes != [] {
      NoQuoteThatDay(quotes[1..], day);
      assert forall i | 0 < i < |quotes| :: quotes[i] == quotes[1..][i - 1];
      assert forall i | 0 <= i < |quotes[1..]| :: quotes[1..][i] == quotes[i + 1];
    }
  }

  lemma AtTheFirstOpenDay(book: Book, requested: int, from: string, to: string, maximum: int)
    requires 0 <= maximum <= MAXIMUM_DAYS && IsCurrency(from) && IsCurrency(to) && from != to
    ensures AllClosed(book, requested, maximum) ==>
              Convert(book, Some(requested), from, to, maximum) == Ok(NoQuote(None))
    ensures forall d | requested <= d <= requested + maximum && FirstOpen(book, requested, d) ::
              Convert(book, Some(requested), from, to, maximum) == ConvertAt(book, d, d - requested, from, to)
  {
    hide ConvertAt, IsCurrency;
    var n := FirstCandidate(book, requested, 0, maximum);
    assert forall d | requested <= d <= requested + maximum && FirstOpen(book, requested, d) ::
        !StatusOf(book, d).NonTrading?;
    if n.Some? {
      assert !StatusOf(book, requested + n.value).NonTrading?;
    }
  }

  /** Which outcome there is, and when: nothing within reach, nothing known of the first open day, a value
      missing or given twice on it, or a rate. */
  lemma ConversionOutcome(book: Book, requested: int, from: string, to: string, maximum: int)
    requires 0 <= maximum <= MAXIMUM_DAYS && IsCurrency(from) && IsCurrency(to) && from != to
    ensures AllClosed(book, requested, maximum) ==>
              Convert(book, Some(requested), from, to, maximum) == Ok(NoQuote(None))
    ensures forall d | requested <= d <= requested + maximum && FirstOpen(book, requested, d) ::
              match Convert(book, Some(requested), from, to, maximum)
              case Err(_) => !NothingKnown(book, d) && (Ambiguous(book, from, d) || Ambiguous(book, to, d))
              case Ok(NoQuote(hit)) => hit == Some(d) && NothingKnown(book, d)
              case Ok(DataGap(gap, behind, _, _)) => gap == d && behind == d - requested && !NothingKnown(book, d)
                && (Worthless(book, from, d) || Worthless(book, to, d))
              case Ok(Converted(hit, fallback, _, _, _)) =>
                hit == d && fallback == d - requested && !NothingKnown(book, d)
              case Ok(_) => false
  {
    hide IsCurrency, Convert, FirstOpen, AllClosed, NothingKnown, Worthless, Ambiguous;
    AtTheFirstOpenDay(book, requested, from, to, maximum);
    forall d | requested <= d <= requested + maximum && FirstOpen(book, requested, d)
      ensures match ConvertAt(book, d, d - requested, from, to)
              case Err(_) => !NothingKnown(book, d) && (Ambiguous(book, from, d) || Ambiguous(book, to, d))
              case Ok(NoQuote(hit)) => hit == Some(d) && NothingKnown(book, d)
              case Ok(DataGap(gap, behind, _, _)) => gap == d && behind == d - requested && !NothingKnown(book, d)
                && (Worthless(book, from, d) || Worthless(book, to, d))
              case Ok(Converted(hit, fallback, _, _, _)) =>
                hit == d && fallback == d - requested && !NothingKnown(book, d)
              case Ok(_) => false
    {
      OpenAtLast(book, requested, d);
      OutcomeAt(book, d, d - requested, from, to);
    }
  }

  lemma OpenAtLast(book: Book, requested: int, day: int)
    requires FirstOpen(book, requested, day)
    ensures !(day in book.days && book.days[day].NonTrading?)
  {
  }

  lemma OutcomeAt(book: Book, day: int, fallback: nat, from: string, to: string)
    requires !(day in book.days && book.days[day].NonTrading?)
    ensures match ConvertAt(book, day, fallback, from, to)
            case Err(_) => !NothingKnown(book, day) && (Ambiguous(book, from, day) || Ambiguous(book, to, day))
            case Ok(NoQuote(hit)) => hit == Some(day) && NothingKnown(book, day)
            case Ok(DataGap(gap, behind, _, _)) => gap == day && behind == fallback && !NothingKnown(book, day)
              && (Worthless(book, from, day) || Worthless(book, to, day))
            case Ok(Converted(hit, n, _, _, _)) => hit == day && n == fallback && !NothingKnown(book, day)
            case Ok(_) => false
  {
    hide Locate, WorthOn, Worthless, Ambiguous, Round, QuotesAt;
    NoQuoteThatDay(book.official, day);
    LocatedIsWorth(book, from, day);
    LocatedIsWorth(book, to, day);
  }

  /** What a run may use: overrides its manifest froze, or all of them, and only rows that touch the window. */
  lemma {:induction false} LoadedRows(tables: Book, from: int, to: int, frozen: Option<set<nat>>, o: Override, q: Quote)
    ensures o in Visible(tables.overrides, frozen) <==> o in tables.overrides && (frozen.None? || o.id in frozen.value)
    ensures var book := LoadFxBook(tables, from, to, frozen);
            && (o in book.overrides <==>
                  o in tables.overrides && (frozen.None? || o.id in frozen.value)
                  && o.validTo >= from && o.validFrom <= to + MAXIMUM_DAYS)
            && (q in book.official <==> q in tables.official && from <= q.day <= to + MAXIMUM_DAYS)
            && (forall d :: d in book.days <==> d in tables.days && from <= d <= to + MAXIMUM_DAYS)
  {
    hide Visible, OverridesBetween, QuotesBetween;
    VisibleRows(tables.overrides, frozen, o);
    VisibleRows(OverridesBetween(tables.overrides, from, to + MAXIMUM_DAYS), frozen, o);
    OverridesInWindow(tables.overrides, from, to + MAXIMUM_DAYS, o);
    QuotesInWindow(tables.official, from, to + MAXIMUM_DAYS, q);
  }

  lemma {:induction false} VisibleRows(overrides: seq<Override>, frozen: Option<set<nat>>, o: Override)
    ensures o in Visible(overrides, frozen) <==> o in overrides && (frozen.None? || o.id in frozen.value)
  {
    if overrides != [] {
      VisibleRows(overrides[1..], frozen, o);
      assert overrides == [overrides[0]] + overrides[1..];
    }
  }

  lemma {:induction false} OverridesInWindow(overrides: seq<Override>, from: int, to: int, o: Override)
    ensures o in OverridesBetween(overrides, from, to) <==> o in overrides && o.validTo >= from && o.validFrom <= to
  {
    if overrides != [] {
      OverridesInWindow(overrides[1..], from, to, o);
      assert overrides == [overrides[0]] + overrides[1..];
    }
  }

  lemma {:induction false} QuotesInWindow(quotes: seq<Quote>, from: int, to: int, q: Quote)
    ensures q in QuotesBetween(quotes, from, to) <==> q in quotes && from <= q.day <= to
  {
    if quotes != [] {
      QuotesInWindow(quotes[1..], from, to, q);
      assert quotes == [quotes[0]] + quotes[1..];
    }
  }

  lemma RateIsNotNegative(book: Book, day: int, fallback: nat, from: string, to: string)
    requires ConvertAt(book, day, fallback, from, to).Ok? && ConvertAt(book, day, fallback, from, to).value.Converted?
    ensures ConvertAt(book, day, fallback, from, to).value.rate >= 0
  {
    hide Round, Locate;
    var a, b := Locate(book, from, day).value.value, Locate(book, to, day).value.value;
    RoundIsMonotone(0.0, a.cny as real / b.cny as real * UNIT as real);
    RoundOfAmount(0);
  }
}
