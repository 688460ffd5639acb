/** Fetching official rates page by page: how the JSON source slices a range, what it validates, what
    persistPage concludes from a page, and when a synchronisation succeeds. */
module FxSync {
  import opened Prelude

  const SLICE_DAYS := 21
  const PAGE_SIZE := 15
  const PAGE_LIMIT := 10_000

  datatype Range = Range(from: int, to: int)

  /** A normalised quote. */
  datatype Quote = Quote(day: int, currency: string, cny: int)

  /** A response, its body standing for its hash: the fields validateOfficialPayload reads, the parsed quotes
      and the dates the payload itself marks as closed. */
  datatype Payload = Payload(
    body: nat, enveloped: bool, start: int, end: int, allCurrencies: bool, pageNumber: int, pageSize: int,
    pageTotal: int, total: int, records: nat, quotes: seq<Quote>, closed: seq<int>)

  datatype Error =
    | PageInvalid | PageSizeInvalid | RangeInvalid | PageOutOfRange
    | EnvelopeInvalid | RangeEchoInvalid | PaginationInvalid | RecordCountInvalid | DateOutOfRange
    | EvidenceInvalid | ConflictingQuote(day: int, currency: string) | PaginationStalled | PageLimitExceeded

  // ---- slicing -------------------------------------------------------------------------------

  function Min(a: int, b: int): int {
    if a < b then a else b
  }

  function PageFrom(range: Range, page: nat): int {
    range.from + (page - 1) * SLICE_DAYS
  }

  /** The days a page asks for. */
  function PageRange(range: Range, page: nat): Range {
    Range(PageFrom(range, page), Min(PageFrom(range, page) + SLICE_DAYS - 1, range.to))
  }

  function CheckPage(range: Range, page: int, pageSize: int): Option<Error> {
    if page < 1 then Some(PageInvalid)
    else if pageSize != PAGE_SIZE then Some(PageSizeInvalid)
    else if range.from > range.to then Some(RangeInvalid)
    else if PageFrom(range, page) > range.to then Some(PageOutOfRange)
    else None
  }

  /** A page is refused for its number, its size, an empty range or for lying behind the range, in this order. */
  lemma PageRefusedExactly(range: Range, page: int, pageSize: int)
    ensures CheckPage(range, page, pageSize) == Some(PageInvalid) <==> page < 1
    ensures CheckPage(range, page, pageSize) == Some(PageSizeInvalid) <==> page >= 1 && pageSize != 15
    ensures CheckPage(range, page, pageSize) == Some(RangeInvalid) <==>
              page >= 1 && pageSize == 15 && range.to < range.from
    ensures CheckPage(range, page, pageSize) == Some(PageOutOfRange) <==>
              page >= 1 && pageSize == 15 && range.from <= range.to && range.to - range.from < 21 * (page - 1)
    ensures CheckPage(range, page, pageSize).None? <==>
              page >= 1 && pageSize == 15 && range.from <= range.to && range.to - range.from >= 21 * (page - 1)
  {
  }

  predicate HasMore(range: Range, page: nat) {
    PageRange(range, page).to < range.to
  }

  function PageCount(range: Range): (n: nat)
    requires range.from <= range.to
    ensures n >= 1
  {
    (range.to - range.from) / SLICE_DAYS + 1
  }

  function PageOf(range: Range, day: int): (page: nat)
    requires range.from <= day <= range.to
    ensures page >= 1
  {
    (day - range.from) / SLICE_DAYS + 1
  }

  /** The pages the source serves are exactly 1 to PageCount, and hasMore says whether another one follows. */
  lemma ServedPages(range: Range, page: nat)
    requires range.from <= range.to
    ensures CheckPage(range, page, PAGE_SIZE).None? <==> 1 <= page <= PageCount(range)
    ensures 1 <= page <= PageCount(range) ==> (HasMore(range, page) <==> page < PageCount(range))
  {
  }

  /** They tile the range: each day lies on exactly one page, and neighbouring pages touch. */
  lemma PagesTileTheRange(range: Range, day: int, page: nat)
    requires range.from <= range.to && 1 <= page <= PageCount(range)
    ensures var p := PageRange(range, page);
            && range.from <= p.from <= p.to <= range.to
            && (p.from <= day <= p.to <==> range.from <= day <= range.to && page == PageOf(range, day))
            && PageRange(range, 1).from == range.from && PageRange(range, PageCount(range)).to == range.to
            && (page < PageCount(range) ==> PageRange(range, page + 1).from == p.to + 1 && p.to - p.from + 1 == 21)
            && p.to - p.from + 1 <= 21
  {
  }

  // ---- validation and evidence ---------------------------------------------------------------

  predicate InRange(day: int, range: Range) {
    range.from <= day <= range.to
  }

  predicate AllInRange(p: Payload, range: Range) {
    (forall q | q in p.quotes :: InRange(q.day, range))
    && forall d | d in p.closed :: InRange(d, range)
  }

  /** validateOfficialPayload. */
  function Validate(p: Payload, range: Range): Option<Error> {
    if !p.enveloped then Some(EnvelopeInvalid)
    else if p.start != range.from || p.end != range.to || !p.allCurrencies then Some(RangeEchoInvalid)
    else if p.pageNumber != 1 || p.pageSize != PAGE_SIZE || p.pageTotal != 1 then Some(PaginationInvalid)
    else if p.total != p.records || p.records > PAGE_SIZE then Some(RecordCountInvalid)
    else if !AllInRange(p, range) then Some(DateOutOfRange)
    else None
  }

  function OpenDays(p: Payload): set<int> {
    set q | q in p.quotes :: q.day
  }

  function ClosedDays(p: Payload): set<int> {
    set d | d in p.closed
  }

  function LatestDay(quotes: seq<Quote>): (day: int)
    requires quotes != []
    ensures day in (set q | q in quotes :: q.day) && forall q | q in quotes :: q.day <= day
  {
    if |quotes| == 1 then quotes[0].day
    else
      var day := LatestDay(quotes[1..]);
      assert quotes == [quotes[0]] + quotes[1..];
      if quotes[0].day > day then quotes[0].day else day
  }

  /** safeAbsenceCutoff: the end of a page that is over, otherwise its latest open day, otherwise none. */
  function Cutoff(pageTo: int, today: int, quotes: seq<Quote>): Option<int> {
    if pageTo < today then Some(pageTo)
    else if quotes == [] then None
    else Some(LatestDay(quotes))
  }

  /** What a page hands to persistPage. */
  function FetchPage(range: Range, page: nat, payload: Payload, today: int): Result<(Range, Option<int>), Error> {
    match CheckPage(range, page, PAGE_SIZE)
    case Some(error) => Err(error)
    case None =>
      var asked := PageRange(range, page);
      match Validate(payload, asked)
      case Some(error) => Err(error)
      case None => Ok((asked, Cutoff(asked.to, today, payload.quotes)))
  }

  /** persistPage's checks of an all-pairs page. */
  predicate EvidenceOk(asked: Range, absentThrough: Option<int>, p: Payload) {
    && asked.from <= asked.to
    && (forall d | d in OpenDays(p) + ClosedDays(p) :: InRange(d, asked))
    && (absentThrough.None? ==> OpenDays(p) == {})
    && (absentThrough.Some? ==>
        InRange(absentThrough.value, asked) && forall d | d in OpenDays(p) :: d <= absentThrough.value)
  }

  /** The days persistPage marks NON_TRADING because no pair was quoted on them. */
  function AbsentDays(asked: Range, absentThrough: Option<int>, p: Payload): set<int> {
    if absentThrough.None? then {}
    else set d | asked.from <= d <= absentThrough.value && d !in OpenDays(p) && d !in ClosedDays(p)
  }

  /** A payload that is the whole answer for the asked days: in its envelope, echoing the days and no currency
      filter, on one page of fifteen, holding all the records it announces, and none outside the days. */
  predicate WholeAnswer(p: Payload, from: int, to: int) {
    && p.enveloped && p.start == from && p.end == to && p.allCurrencies
    && p.pageNumber == 1 && p.pageSize == 15 && p.pageTotal == 1 && p.records == p.total && p.total <= 15
    && DatesWithin(p, from, to)
  }

  predicate DatesWithin(p: Payload, from: int, to: int) {
    && (forall i | 0 <= i < |p.quotes| :: from <= p.quotes[i].day <= to)
    && (forall i | 0 <= i < |p.closed| :: from <= p.closed[i] <= to)
  }

  /** What persistPage accepts as evidence: dates of the page only, no quote without a cutoff, and none after it. */
  lemma EvidenceExactly(asked: Range, absentThrough: Option<int>, p: Payload)
    ensures EvidenceOk(asked, absentThrough, p) <==>
              && asked.from <= asked.to && DatesWithin(p, asked.from, asked.to)
              && match absentThrough
                 case None => p.quotes == []
                 case Some(cutoff) => asked.from <= cutoff <= asked.to
                                      && forall i | 0 <= i < |p.quotes| :: p.quotes[i].day <= cutoff
  {
    assert forall i | 0 <= i < |p.quotes| :: p.quotes[i].day in OpenDays(p);
    assert forall i | 0 <= i < |p.closed| :: p.closed[i] in ClosedDays(p);
    if p.quotes == [] {
      assert OpenDays(p) == {};
    } else {
      assert p.quotes[0].day in OpenDays(p);
    }
    if EvidenceOk(asked, absentThrough, p) {
      assert forall i | 0 <= i < |p.quotes| :: InRange(p.quotes[i].day, asked);
      assert forall i | 0 <= i < |p.closed| :: InRange(p.closed[i], asked);
    }
  }

  /** Exactly whole answers for the days of a page that exists are accepted, and each refusal names a defect
      that is there. */
  lemma AcceptedExactly(range: Range, page: nat, p: Payload, today: int)
    ensures var from, r := range.from + (page - 1) * 21, FetchPage(range, page, p, today);
            var to := if from + 20 < range.to then from + 20 else range.to;
            && (r.Ok? <==> page >= 1 && range.from <= range.to && from <= range.to && WholeAnswer(p, from, to))
            && (r.Ok? ==> r.value.0 == Range(from, to))
            && (r.Err? ==>
                  match r.error
                  case PageInvalid => page < 1
                  case RangeInvalid => range.from > range.to
                  case PageOutOfRange => from > range.to
                  case EnvelopeInvalid => !p.enveloped
                  case RangeEchoInvalid => p.start != from || p.end != to || !p.allCurrencies
                  case PaginationInvalid => p.pageNumber != 1 || p.pageSize != 15 || p.pageTotal != 1
                  case RecordCountInvalid => p.records != p.total || p.records > 15
                  case DateOutOfRange => !DatesWithin(p, from, to)
                  case _ => false)
  {
    hide InRange, AllInRange;
    var from := range.from + (page - 1) * 21;
    var to := if from + 20 < range.to then from + 20 else range.to;
    assert PageRange(range, page) == Range(from, to);
    DatesInRange(p, Range(from, to));
  }

  lemma DatesInRange(p: Payload, range: Range)
    ensures AllInRange(p, range) <==>
              && (forall i | 0 <= i < |p.quotes| :: range.from <= p.quotes[i].day <= range.to)
              && (forall i | 0 <= i < |p.closed| :: range.from <= p.closed[i] <= range.to)
  {
    if AllInRange(p, range) {
      forall i | 0 <= i < |p.quotes| ensures range.from <= p.quotes[i].day <= range.to {
        assert p.quotes[i] in p.quotes;
      }
      forall i | 0 <= i < |p.closed| ensures range.from <= p.closed[i] <= range.to {
        assert p.closed[i] in p.closed;
      }
    }
  }

  /** Every page the source accepts passes all of persistPage's evidence checks. */
  lemma FetchedEvidenceIsAccepted(range: Range, page: nat, payload: Payload, today: int)
    requires FetchPage(range, page, payload, today).Ok?
    ensures var (asked, through) := FetchPage(range, page, payload, today).value; EvidenceOk(asked, through, payload)
  {
    ServedPages(range, page);
    PagesTileTheRange(range, range.from, page);
  }

  /** Which days are marked by absence: those of the page without quote or explicit mark that lie before today
      together with the whole page, or no later than some open day of the page. */
  lemma AbsentDaysExactly(range: Range, page: nat, payload: Payload, today: int, day: int)
    requires FetchPage(range, page, payload, today).Ok?
    ensures var (asked, through) := FetchPage(range, page, payload, today).value;
            day in AbsentDays(asked, through, payload) <==>
              && InRange(day, asked) && day !in OpenDays(payload) && day !in ClosedDays(payload)
              && (asked.to < today || exists d | d in OpenDays(payload) :: day <= d)
  {
    FetchedEvidenceIsAccepted(range, page, payload, today);
    var (asked, through) := FetchPage(range, page, payload, today).value;
    if asked.to >= today {
      if payload.quotes == [] {
        assert OpenDays(payload) == {};
      } else {
        assert LatestDay(payload.quotes) in OpenDays(payload);
      }
    }
  }

  // ---- normalised quotes ---------------------------------------------------------------------

  predicate Conflict(quotes: seq<Quote>, i: nat, j: nat)
    requires i < |quotes| && j < |quotes|
  {
    quotes[i].day == quotes[j].day && quotes[i].currency == quotes[j].currency && quotes[i].cny != quotes[j].cny
  }

  predicate Consistent(quotes: seq<Quote>) {
    forall i, j | 0 <= i < |quotes| && 0 <= j < |quotes| :: !Conflict(quotes, i, j)
  }

  predicate Collected(found: map<(int, string), int>, quotes: seq<Quote>) {
    && (forall i | 0 <= i < |quotes| :: (quotes[i].day, quotes[i].currency) in found
                                        && found[(quotes[i].day, quotes[i].currency)] == quotes[i].cny)
    && forall k | k in found :: exists i | 0 <= i < |quotes| :: k == (quotes[i].day, quotes[i].currency)
  }

  /** The quotes of a page by day and currency; two different values for one of them are refused. */
  method NormalizedQuotes(quotes: seq<Quote>) returns (r: Result<map<(int, string), int>, Error>)
    ensures r.Ok? <==> Consistent(quotes)
    ensures r.Ok? ==> Collected(r.value, quotes)
    ensures r.Err? ==> exists i, j | 0 <= i < j < |quotes| ::
              Conflict(quotes, i, j) && r.error == ConflictingQuote(quotes[i].day, quotes[i].currency)
  {
    var found: map<(int, string), int> := map[];
    for n := 0 to |quotes|
      invariant Collected(found, quotes[..n]) && Consistent(quotes[..n])
    {
      var raw := quotes[n];
      var key := (raw.day, raw.currency);
      if key in found && found[key] != raw.cny {
        var i :| 0 <= i < n && key == (quotes[..n][i].day, quotes[..n][i].currency);
        assert Conflict(quotes, i, n);
        return Err(ConflictingQuote(raw.day, raw.currency));
      }
      if key !in found { found := found[key := raw.cny]; }
      AddsQuote(quotes, n, found);
    }
    assert quotes[..|quotes|] == quotes;
    return Ok(found);
  }

  lemma AddsQuote(quotes: seq<Quote>, n: nat, found: map<(int, string), int>)
    requires n < |quotes| && Consistent(quotes[..n])
    requires forall i | 0 <= i <= n ::
             (quotes[i].day, quotes[i].currency) in found && found[(quotes[i].day, quotes[i].currency)] == quotes[i].cny
    requires forall k | k in found :: exists i | 0 <= i <= n :: k == (quotes[i].day, quotes[i].currency)
    ensures Collected(found, quotes[..n + 1]) && Consistent(quotes[..n + 1])
  {
    var more := quotes[..n + 1];
    forall k | k in found ensures exists i | 0 <= i < |more| :: k == (more[i].day, more[i].currency) {
      var i :| 0 <= i <= n && k == (quotes[i].day, quotes[i].currency);
      assert more[i] == quotes[i];
    }
  }

  // ---- the page loop -------------------------------------------------------------------------

  /** Whether page n of a synchronisation goes through; today is read once a page is there. */
  predicate PageGoesThrough(range: Range, serve: nat -> Payload, today: nat -> int, n: nat) {
    && FetchPage(range, n, serve(n), today(n)).Ok? && Consistent(serve(n).quotes)
    && forall m | 1 <= m < n :: serve(m).body != serve(n).body
  }

  /** One turn of the loop up to the COMMIT of its page. The evidence checks are made, and never fail. */
  method SyncPage(range: Range, page: nat, payload: Payload, today: int, bodies: set<nat>) returns (failed: bool)
    ensures !failed <==>
            FetchPage(range, page, payload, today).Ok? && payload.body !in bodies && Consistent(payload.quotes)
  {
    var fetched := FetchPage(range, page, payload, today);
    if fetched.Err? { return true; }
    if payload.body in bodies { return true; }
    var quotes := NormalizedQuotes(payload.quotes);
    if quotes.Err? { return true; }
    FetchedEvidenceIsAccepted(range, page, payload, today);
    return !EvidenceOk(fetched.value.0, fetched.value.1, payload);
  }

  /** syncChinaMoney: succeeds exactly when the range is not longer than the page limit and every one of its
      pages goes through; the pages persisted are always a prefix, and on success all of them. */
  method SyncChinaMoney(range: Range, serve: nat -> Payload, today: nat -> int) returns (ok: bool, persisted: nat)
    ensures ok <==> range.from <= range.to && PageCount(range) <= PAGE_LIMIT
                    && forall n | 1 <= n <= PageCount(range) :: PageGoesThrough(range, serve, today, n)
    ensures forall n | 1 <= n <= persisted :: PageGoesThrough(range, serve, today, n)
    ensures ok ==> persisted == PageCount(range)
  {
    persisted := 0;
    var bodies: set<nat> := {};
    for page := 1 to PAGE_LIMIT + 1
      invariant page <= PAGE_LIMIT
      invariant persisted == page - 1 && forall b :: b in bodies <==> exists m | 1 <= m < page :: serve(m).body == b
      invariant forall n | 1 <= n < page :: PageGoesThrough(range, serve, today, n)
      invariant page > 1 ==> range.from <= range.to && page <= PageCount(range)
    {
      var failed := SyncPage(range, page, serve(page), today(page), bodies);
      if range.from <= range.to { ServedPages(range, page); }
      if failed {
        assert !PageGoesThrough(range, serve, today, page);
        return false, persisted;
      }
      bodies := bodies + {serve(page).body};
      persisted := page;
      if !HasMore(range, page) { return true, persisted; }
      if page == PAGE_LIMIT { return false, persisted; }
    }
    assert false;
  }
}
