# Stock history analysis: a verified model

This project models the history-analysis endpoint of a small stock-price
service, `GET /{symbol}/{start_date}/{end_date}`. For one stock symbol and a
date window the endpoint reports:

- the best buying day (lowest low) and best selling day (highest high), with
  their closing prices and the single-trade profit between them;
- the multi-trade profit, the sum of all day-over-day rises of the closing
  price;
- the same two figures for the windows just before and just after, both
  derived from the same interval `L = end - start`;
- every symbol whose multi-trade profit in the requested window is strictly
  higher than the queried symbol's;
- metadata: the upper-cased symbol and the two dates.

The database is not modelled. The model's `Store` holds the stock records
and the two queries as functions from a window to the rows the query
returns. Everything the endpoint does with those rows is modelled.

Modules, one per component of the endpoint:

- `Common`: `Option`, `Result`, the two request failures (`Fault`: invalid
  input, HTTP 400; not found, HTTP 404), and order-preserving `Filter`.
- `Text`: ASCII case mapping.
- `Calendar`: strict `YYYY-MM-DD` parsing into proleptic Gregorian day
  numbers. 0001-01-01 is day 1 and 9999-12-31 is `MAX_DAY`. Leaving that
  range is the datetime overflow.
- `Windows`: the previous and next windows, and their overflow checks.
- `Extremes`: post-processing of the grouped per-day query (best buy, best
  sell, profit).
- `Profit`: the profit accumulator, an imperative loop over a map, proved
  against per-symbol closing-price sequences. It also proves that the
  accumulated "sum of rises" is the best profit any sequence of
  non-overlapping round trips can earn.
- `Analysis`: validation order, the endpoint itself, and report assembly.
- `StockCreation`: the required-fields check of `create_stock`.
- `Scenarios`: worked examples.

Three behaviours of the endpoint are easy to miss:

- The adjacent windows are `[start - L, start - 1]` and `[end + 1, end + L]`
  with `L = end - start`. So they cover `L` days, while the requested
  inclusive window covers `L + 1`. They are not of identical length
  (`Windows.PeriodsLayout`).
- The single-trade profit is absent whenever either closing price is falsy.
  A closing price of 0 therefore yields no profit, just as a missing one
  would (`Extremes.ZeroCloseGivesNoProfit`).
- The accumulator's key is the lower-cased symbol. Two stock records whose
  symbols differ only in case share one entry.

## Model

| member | source | states |
|---|---|---|
| `Calendar.ParseDay` | main.py:258-264 | a parse succeeds exactly when the text parses as a date (see `Calendar.ParseDateExactly`); its value is that date's day number, which lies between the first and last representable day |
| `Calendar.ParseFormat` | main.py:258-264 | every valid date written as YYYY-MM-DD parses back to that date and its day number, so valid requests get past the format check |
| `Calendar.FormatParse` | main.py:258-264 | a text that parses is exactly the zero-padded YYYY-MM-DD text of the date it names |
| `Calendar.ParseDateExactly` | main.py:258-264 | a text parses to a date if and only if that date is valid and the text is its YYYY-MM-DD form |
| `Calendar.NumberOfDigits` | main.py:259-260 | a zero-padded numeral of fixed width reads back as its number |
| `Calendar.DigitsOfNumber` | main.py:259-260 | a text of digits is the zero-padded numeral of the number it reads as |
| `Calendar.NextDateIsNextDay` | main.py:274-275 | the calendar day after any date but the last has the next day number, so `timedelta(days=1)` is adding 1 to a day number |
| `Calendar.EveryDayIsADate` | main.py:271-280 | every day number from `MIN_DAY` to `MAX_DAY` names a valid date, so every window bound derived inside that range is a datetime |
| `Calendar.OrdinalInRange` | main.py:259-260 | every valid date of years 1 to 9999 has a day number between `MIN_DAY` and `MAX_DAY` |
| `Calendar.OrdinalOrder` | main.py:266 | day numbers order dates exactly as datetimes compare (year, month, day), and name each date once |
| `Calendar.ParseDayOrder` | main.py:266-269 | comparing parsed day numbers is comparing the parsed dates, so `start >= end` is decided on day numbers |
| `Windows.DerivePeriods` | main.py:271-280 | previous is `[start - L, start - 1]`, next is `[end + 1, end + L]`; the derivation fails exactly when `start - L` or `end + L` leaves the representable range |
| `Windows.PeriodsLayout` | main.py:272-276 | the adjacent windows border the requested one, share no day with it, lie in range, and each covers `L` days against the requested window's `L + 1` |
| `Extremes.FirstMinLow` | main.py:307 | the chosen row has the least `min_low`, and every earlier row's is strictly greater (Python `min` keeps the first of ties) |
| `Extremes.FirstMaxHigh` | main.py:308 | the chosen row has the greatest `max_high`, and every earlier row's is strictly smaller |
| `Extremes.FirstMinLowIsUnique` | main.py:307 | any row that is first among the lowest is the chosen one |
| `Extremes.FirstMaxHighIsUnique` | main.py:308 | any row that is first among the highest is the chosen one |
| `Extremes.BestPricesOf` | main.py:307-339 | absent exactly when there are no rows; otherwise buy = first min-low row with its close, sell = first max-high row with its close; profit present exactly when both closes are nonzero, and then it is sell close minus buy close |
| `Extremes.ZeroCloseGivesNoProfit` | main.py:313-319 | a zero closing price at either extreme gives no profit figure, not a number |
| `Profit.Gains` | main.py:362-364 | the sum of positive day-over-day rises is never negative |
| `Profit.CalculateMaxProfit` | main.py:341-370 | the loop builds the table of `ProfitTableOf(rows)`: keys in first-seen order, profit = gains of the key's closes, last price = the key's last close. With a truthy target it returns that symbol's profit instead, 0 when it has no rows |
| `Profit.ProfitTableFacts` | main.py:356-365 | the table has distinct lower-cased keys, exactly the keys that have rows; every profit is non-negative; every last price is the close of the last row with that key, whatever the sign of the last delta |
| `Profit.LastPriceIsLastClose` | main.py:365 | the last element of a key's closing prices is the closing price of the last row with that key |
| `Profit.SymbolProfit` | main.py:367-368 | target mode answers the profit under the lower-cased target, never negative |
| `Profit.SymbolProfitWithoutRows` | main.py:368 | a target symbol without rows gets profit 0, never an absent value |
| `Profit.HigherProfitSymbols` | main.py:393-397 | exactly the table's keys whose profit is strictly greater than the threshold, in the table's insertion order |
| `Profit.Outperformers` | main.py:382-397 | against the same rows, the listed symbols are exactly those with rows and strictly greater gains, in first-seen order; the queried symbol is never among them |
| `Profit.GainsIsOptimal` | main.py:356-365 | no plan of non-overlapping round trips earns more than the accumulated gains, and one trade per rising day earns exactly them |
| `Analysis.FindStockId` | main.py:250-253 | no id exactly when no record matches the symbol ignoring case; otherwise the id of the first matching record, the row `.scalar()` returns |
| `Analysis.FirstMatchDecides` | main.py:250-256 | whatever later records match too, the first matching record's id is the one found, and its truthiness decides not-found |
| `Analysis.Validate` | main.py:250-280 | the checks fail fast in order: unknown symbol gives not-found whatever the dates; then a malformed date gives invalid-input; then `start >= end` gives invalid-input (equal texts always fail); then overflow gives invalid-input; success yields the derived windows of the parsed days |
| `Analysis.Analyze` | main.py:235-433 | a validation failure is the response; otherwise not-found exactly when the requested window has no rows; otherwise the report of the validated windows |
| `Analysis.AnalyzePeriods` | main.py:372-433 | not-found exactly when the requested window has no extremes; else requested and adjacent windows as entries (each adjacent one present exactly when it has rows), the higher-profit symbols, metadata with the upper-cased symbol; the queried symbol is never listed and every profit is non-negative |
| `Analysis.AssembleReport` | main.py:399-431 | the analysis always holds the requested window and holds the previous and next windows exactly when they have results |
| `StockCreation.MissingFields` | main.py:130-133 | exactly the required fields absent from the body, in the listed order |
| `StockCreation.CheckRequiredFields` | main.py:134-138 | no error exactly when all required fields are present; otherwise the 400 error naming the missing ones joined by ", " |
| `Text.UpperKeepsIdentity` | main.py:408 | the upper-cased metadata symbol names the same instrument, ignoring case, as the requested one |
| `Text.LowerIdempotent` | main.py:346 | a lower-cased key lower-cases to itself, so target lookup finds it |
| `Scenarios.ThreeDayWindow` | main.py:307-370 | for lows 10, 8, 9, highs 12, 9, 14 and closes 11, 8.50, 13: buy on day 2 at 8.50, sell on day 3 at 13, profit 4.50, multi-trade profit 4.50 |
| `Scenarios.NewYear2020` | main.py:258-260 | "2020-01-01" parses to day 737425, the proleptic Gregorian ordinal of that date |
| `Scenarios.ThirdOfJanuary2020` | main.py:258-260 | "2020-01-03" parses to day 737427 |
| `Scenarios.ValidRequest` | main.py:250-280 | an existing stock with "2020-01-01" and "2020-01-03" passes every check; the windows are days 737425-737427, 737423-737424 and 737428-737429 |
| `Scenarios.MonthThirteenIsMalformed` | main.py:258-264 | "2020-13-01" does not parse |

## Left out

- HTTP routing, status codes and exception objects, and async/await are not modelled. Outcomes are `Result<Report, Fault>`. The router only matches non-empty path segments, so `Analysis.Analyze` requires a non-empty symbol.
- The SQL queries are not modelled: the join, `GROUP BY date`, the `first_value` window columns, `BETWEEN` and `ORDER BY`. The `Store` supplies the rows they return. `.scalar()` sees the records in the order they are stored.
- Every query of one request is taken to read one unchanged store: `Store` holds fixed functions, so repeated queries over a window return the same rows. The source runs separate queries with nothing tying them to one snapshot. A write between the two profit queries over the requested window could therefore put the queried symbol in the higher-profit list, which `Analysis.AnalyzePeriods` and `Profit.Outperformers` rule out.
- Python `str.lower`/`str.upper` and SQL `lower` are modelled on ASCII letters only; the rest of Unicode case mapping is left out.
- `Calendar.ParseDay`: accepts only the strict form (four-digit year, two-digit month and day, ASCII digits). `strptime` is more lenient: it also accepts one-digit months and days, a space-padded day, and non-ASCII digits.
- ISO formatting of dates in the response is not modelled. Report dates stay day numbers.
- Prices are integers (cents), not floating point. Rounding and NaN are not modelled.
- Internal failures (store unavailable, HTTP 500) are not modelled.
- The CRUD endpoints are not modelled (`read_stocks`, `delete_stock`, `update_stock`, `read_stock`, `read_stock_history`). Neither is the rest of `create_stock` after its field check (date parsing, insert, duplicate-symbol error). All of these are database reads and writes.
- The ORM schema (`models/stocks.py`), the session plumbing (`dependencies/database.py`) and the HTTP smoke tests (`tests/test_main.py`) are not modelled.
