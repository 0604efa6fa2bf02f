/** The history-analysis endpoint: validation of the request, the three
    windows, the best prices and multi-trade profit of each, the symbols that
    did better in the requested window, and the assembly of the report. */
module Analysis {
  import opened Common
  import opened Text
  import opened Calendar
  import opened Windows
  import opened Extremes
  import opened Profit

  datatype StockRecord = StockRecord(id: int, symbol: string)

  /** The database as the endpoint reads it: the stock records, the grouped
      per-day query for one symbol over an inclusive window, and the query of
      closing prices of all symbols over an inclusive window, ordered by
      symbol then date. */
  datatype Store = Store(
    stocks: seq<StockRecord>,
    dailyExtremes: (string, Day, Day) -> seq<DayExtremes>,
    closingPrices: (Day, Day) -> seq<CloseRow>)

  datatype Period = CurrentPeriod | PreviousPeriod | NextPeriod

  datatype PeriodReport = PeriodReport(prices: BestPrices, multiTradeMaxProfit: int)

  datatype Metadata = Metadata(symbol: string, startDate: Day, endDate: Day)

  datatype Report = Report(
    analysis: map<Period, PeriodReport>,
    higherProfitSymbols: seq<string>,
    metadata: Metadata)

  const BAD_DATE_FORMAT := "Dates must be in YYYY-MM-DD format"
  const NOT_CHRONOLOGICAL := "start_date must be before end_date"
  const DATE_OVERFLOW := "date older than the record"
  const NO_RECORD := "There is no record for the selected period"

  function UnknownSymbol(symbol: string): string {
    "Stock with symbol '" + symbol + "' not found"
  }

  predicate SameSymbol(a: string, b: string) {
    Lower(a) == Lower(b)
  }

  /** Record `i` is the first one whose symbol matches, ignoring case. */
  predicate IsFirstMatch(stocks: seq<StockRecord>, symbol: string, i: int) {
    && 0 <= i < |stocks|
    && SameSymbol(stocks[i].symbol, symbol)
    && forall j :: 0 <= j < i ==> !SameSymbol(stocks[j].symbol, symbol)
  }

  /** The id in the first stock record whose symbol matches, ignoring case. */
  function FindStockId(stocks: seq<StockRecord>, symbol: string): (r: Option<int>)
    ensures r.None? <==> forall i :: 0 <= i < |stocks| ==> !SameSymbol(stocks[i].symbol, symbol)
    ensures r.Some? ==> exists i :: IsFirstMatch(stocks, symbol, i) && stocks[i].id == r.value
  {
    if stocks == [] then None
    else if SameSymbol(stocks[0].symbol, symbol) then
      assert IsFirstMatch(stocks, symbol, 0);
      Some(stocks[0].id)
    else
      var r := FindStockId(stocks[1..], symbol);
      assert forall i :: 1 <= i < |stocks| ==> stocks[1..][i - 1] == stocks[i];
      if r.Some? then
        var i :| IsFirstMatch(stocks[1..], symbol, i) && stocks[1..][i].id == r.value;
        assert IsFirstMatch(stocks, symbol, i + 1);
        r
      else r
  }

  /** Only the first matching record decides: its id is the one found. */
  lemma FirstMatchDecides(stocks: seq<StockRecord>, symbol: string, i: int)
    requires IsFirstMatch(stocks, symbol, i)
    ensures FindStockId(stocks, symbol) == Some(stocks[i].id)
  {
    var r := FindStockId(stocks, symbol);
    assert SameSymbol(stocks[i].symbol, symbol);
    assert r.Some?;
    var k :| IsFirstMatch(stocks, symbol, k) && stocks[k].id == r.value;
    assert SameSymbol(stocks[k].symbol, symbol);
    assert k == i;
  }

  /** The existence check: a matching record whose id is truthy. */
  predicate StockExists(stocks: seq<StockRecord>, symbol: string) {
    FindStockId(stocks, symbol).Some? && FindStockId(stocks, symbol).value != 0
  }

  /** The checks of the endpoint, in their order: the symbol, then the
      format of both dates, then their order, then the derivation of the
      adjacent windows. Each failure stops the request. */
  function Validate(stocks: seq<StockRecord>, symbol: string, startDate: string, endDate: string): (r: Result<Periods, Fault>)
    ensures !StockExists(stocks, symbol) ==> r == Err(NotFound(UnknownSymbol(symbol)))
    ensures r.Err? && r.error.NotFound? ==> !StockExists(stocks, symbol)
    ensures StockExists(stocks, symbol) && (ParseDay(startDate).None? || ParseDay(endDate).None?) ==>
      r == Err(InvalidInput(BAD_DATE_FORMAT))
    ensures (StockExists(stocks, symbol) && ParseDay(startDate).Some? && ParseDay(endDate).Some?
             && ParseDay(startDate).value >= ParseDay(endDate).value) ==>
      r == Err(InvalidInput(NOT_CHRONOLOGICAL))
    ensures startDate == endDate ==> r.Err?
    ensures r.Ok? ==>
      && StockExists(stocks, symbol)
      && ParseDay(startDate) == Some(r.value.current.start)
      && ParseDay(endDate) == Some(r.value.current.end)
      && r.value.current.start < r.value.current.end
      && DerivePeriods(r.value.current.start, r.value.current.end) == Some(r.value)
    ensures (StockExists(stocks, symbol) && ParseDay(startDate).Some? && ParseDay(endDate).Some?
             && ParseDay(startDate).value < ParseDay(endDate).value) ==>
      (r.Err? <==> DerivePeriods(ParseDay(startDate).value, ParseDay(endDate).value).None?)
      && (r.Err? ==> r == Err(InvalidInput(DATE_OVERFLOW)))
  {
    if !StockExists(stocks, symbol) then Err(NotFound(UnknownSymbol(symbol)))
    else
      var start, end := ParseDay(startDate), ParseDay(endDate);
      if start.None? || end.None? then Err(InvalidInput(BAD_DATE_FORMAT))
      else if start.value >= end.value then Err(InvalidInput(NOT_CHRONOLOGICAL))
      else
        match DerivePeriods(start.value, end.value)
        case None => Err(InvalidInput(DATE_OVERFLOW))
        case Some(periods) => Ok(periods)
  }

  /** What the report says of one window: its best prices, and the queried
      symbol's multi-trade profit there; nothing when the window has no rows. */
  function PeriodEntry(store: Store, symbol: string, w: DateWindow): Option<PeriodReport> {
    WithProfit(BestPricesOf(store.dailyExtremes(symbol, w.start, w.end)), SymbolProfit(store.closingPrices(w.start, w.end), symbol))
  }

  /** A window's best prices merged with its multi-trade profit. */
  function WithProfit(prices: Option<BestPrices>, profit: int): Option<PeriodReport> {
    match prices
    case None => None
    case Some(b) => Some(PeriodReport(b, profit))
  }

  function Lookup(m: map<Period, PeriodReport>, k: Period): Option<PeriodReport> {
    if k in m then Some(m[k]) else None
  }

  /** `stock_history_analysis`. A request that fails validation fails with
      that error; one whose requested window has no rows fails with
      not-found, whatever the adjacent windows hold; otherwise the report is
      the one of the validated windows (see AnalyzePeriods). The router only
      passes non-empty symbols. */
  method Analyze(store: Store, symbol: string, startDate: string, endDate: string) returns (r: Result<Report, Fault>)
    requires symbol != ""
    ensures var v := Validate(store.stocks, symbol, startDate, endDate);
      v.Err? ==> r == Err(v.error)
    ensures var v := Validate(store.stocks, symbol, startDate, endDate);
      v.Ok? ==>
        && (r.Err? <==> PeriodEntry(store, symbol, v.value.current).None?)
        && (r.Err? ==> r.error == NotFound(NO_RECORD))
        && (r.Ok? ==> IsReportOf(store, symbol, v.value, r.value))
  {
    var validated := Validate(store.stocks, symbol, startDate, endDate);
    if validated.Err? {
      return Err(validated.error);
    }
    r := AnalyzePeriods(store, symbol, validated.value);
  }

  /** The report of validated windows: the requested window, each adjacent
      window exactly when it has rows, the symbols whose profit in the
      requested window is strictly greater than the queried one's, in
      first-seen order, and the upper-cased symbol with the requested days. */
  ghost predicate IsReportOf(store: Store, symbol: string, p: Periods, report: Report) {
    var rows := store.closingPrices(p.current.start, p.current.end);
    && Lookup(report.analysis, CurrentPeriod) == PeriodEntry(store, symbol, p.current)
    && Lookup(report.analysis, PreviousPeriod) == PeriodEntry(store, symbol, p.previous)
    && Lookup(report.analysis, NextPeriod) == PeriodEntry(store, symbol, p.next)
    && ProfitTableOf(rows).Valid()
    && report.higherProfitSymbols == HigherProfitSymbols(ProfitTableOf(rows), SymbolProfit(rows, symbol))
    && report.metadata == Metadata(Upper(symbol), p.current.start, p.current.end)
  }

  /** Everything after validation: the three windows' best prices, not-found
      when the requested window has none, then the profits and the report.
      A successful report never lists the queried symbol among those that
      did better, and every profit in it is non-negative. */
  method AnalyzePeriods(store: Store, symbol: string, p: Periods) returns (r: Result<Report, Fault>)
    requires symbol != ""
    ensures r.Err? <==> PeriodEntry(store, symbol, p.current).None?
    ensures r.Err? ==> r.error == NotFound(NO_RECORD)
    ensures r.Ok? ==> IsReportOf(store, symbol, p, r.value)
    ensures r.Ok? ==>
      && Lower(symbol) !in r.value.higherProfitSymbols
      && forall k :: k in r.value.analysis ==> r.value.analysis[k].multiTradeMaxProfit >= 0
  {
    var currentPeriod := BestPricesOf(store.dailyExtremes(symbol, p.current.start, p.current.end));
    var prevPeriod := BestPricesOf(store.dailyExtremes(symbol, p.previous.start, p.previous.end));
    var nextPeriod := BestPricesOf(store.dailyExtremes(symbol, p.next.start, p.next.end));
    if currentPeriod.None? {
      return Err(NotFound(NO_RECORD));
    }

    var currentRows := store.closingPrices(p.current.start, p.current.end);
    var currentMaxProfit := CalculateMaxProfit(currentRows, Some(symbol));
    var prevMaxProfit := CalculateMaxProfit(store.closingPrices(p.previous.start, p.previous.end), Some(symbol));
    var nextMaxProfit := CalculateMaxProfit(store.closingPrices(p.next.start, p.next.end), Some(symbol));
    var allProfits := CalculateMaxProfit(currentRows, None);

    ProfitTableFacts(currentRows);
    Outperformers(currentRows, symbol);
    var higherProfitSymbols := HigherProfitSymbols(allProfits.table, currentMaxProfit.profit);

    var report := AssembleReport(
      PeriodReport(currentPeriod.value, currentMaxProfit.profit),
      WithProfit(prevPeriod, prevMaxProfit.profit),
      WithProfit(nextPeriod, nextMaxProfit.profit),
      higherProfitSymbols,
      Metadata(Upper(symbol), p.current.start, p.current.end));
    assert currentMaxProfit.profit >= 0 && prevMaxProfit.profit >= 0 && nextMaxProfit.profit >= 0;
    forall k | k in report.analysis ensures report.analysis[k].multiTradeMaxProfit >= 0 {
      assert Lookup(report.analysis, k) == Some(report.analysis[k]);
      match k
      case CurrentPeriod =>
      case PreviousPeriod => assert prevPeriod.Some?;
      case NextPeriod => assert nextPeriod.Some?;
    }
    r := Ok(report);
  }

  /** The response: the requested window always, each adjacent window added
      to the analysis only when it has a result. */
  method AssembleReport(
    current: PeriodReport, previous: Option<PeriodReport>, next: Option<PeriodReport>,
    higherProfitSymbols: seq<string>, metadata: Metadata)
    returns (report: Report)
    ensures Lookup(report.analysis, CurrentPeriod) == Some(current)
    ensures Lookup(report.analysis, PreviousPeriod) == previous
    ensures Lookup(report.analysis, NextPeriod) == next
    ensures report.higherProfitSymbols == higherProfitSymbols && report.metadata == metadata
  {
    report := Report(map[CurrentPeriod := current], higherProfitSymbols, metadata);
    if previous.Some? {
      report := report.(analysis := report.analysis[PreviousPeriod := previous.value]);
    }
    if next.Some? {
      report := report.(analysis := report.analysis[NextPeriod := next.value]);
    }
  }
}
