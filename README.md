# Bollinger-band 50:50 rebalancing backtest, in Dafny

This project models the core of a small Taiwanese-stock toolkit:

- **test2.py**: a backtest of a 50:50 cash/equity portfolio. It rebalances when the close breaks out of its Bollinger bands and then comes back inside.
  - Bands: the 20-day moving average of the close, plus or minus two 20-day standard deviations. Days without a full 20-close window are dropped.
  - Loop: each day two pending flags are re-derived from yesterday's close and bands. Then at most one trade fires against today's close, volume and bands. Then the day's total value and equity weight are recorded.
  - Trades: a sell fires after a close at or above the upper band, once the price is back under it. A buy fires after a close at or below the lower band, once the price is back above it on a day with volume. Either trade resets the portfolio to half cash, half shares by value.
- **test.py**: the clean-up of the Taiwan Stock Exchange's monthly daily-quote reports, and the month cursor of the fetcher.
  - `convert_date` turns a Republic-of-China date "yyy/mm/dd" into "YYYY-mm-dd" by adding 1911 to the year.
  - The price and volume columns have their thousands separators removed.
  - The fetch cursor moves to day 1 of the next month by adding 32 days to day 1 of the current month.

Modules:

- `Bands` (bands.dfy): the input rows, the rolling mean over reals, the bands, and the `dropna` trim.
- `Rebalance` (rebalance.dfy): the per-day rules. These are the initial split, the flag re-derivation, the sell and buy legs, the equity weight and one whole day (`Day`).
- `Backtest` (backtest.dfy):
  - `Replay` specifies the loop: the state after n − 1 days.
  - Lemmas state the properties of that state.
  - The class `Backtester` holds the variables the loop updates in place: `cash`, `shares`, `pendingBuy`, `pendingSell`, `buyPoints`, `sellPoints`, `portfolioValues` and `positions`.
  - `Backtester.Step(i)` is the loop body, proved equal to one step of `Replay`. `Backtester.Run` is the loop. `RunBacktest` runs the whole script.
- `RocDate` (rocdate.dfy): Python's `split`, `int()` and integer rendering; `convert_date`; comma stripping; the per-month frame.
- `Calendar` (calendar.dfy): proleptic Gregorian dates as Python's `datetime` has them, the next-month step and the fetch loop.
- `Wrappers` (wrappers.dfy): `Option` and `Result`.

Prices, cash and shares are Dafny `real`s, so value conservation and the 50:50 split hold exactly. The source has them only up to float rounding.

## Model

| member | source | states |
|---|---|---|
| `Bands.MeanBounds` | test2.py:15 | The 20-day moving average lies between any lower and upper bound of the closes in its window. |
| `Bands.BuildRows` | test2.py:15-19 | After `dropna` the first 19 bars are gone (none remain when there are fewer than 20). Row k is bar k + 19 with its own date, close and volume, plus its MA20, STD20 and bands. |
| `Bands.BandOrder` | test2.py:15-18 | Every surviving row has Lower <= MA20 <= Upper, with both bands exactly 2 * STD20 from MA20 when STD20 >= 0. MA20 lies between the window's extreme closes. |
| `Bands.BuildRowsGood` | test2.py:19 | Dropping the leading rows keeps every close positive and the dates strictly increasing. |
| `Rebalance.InitialSplitHalves` | test2.py:22-24 | cash = initial_cash / 2 and shares * close[0] = initial_cash / 2, so the portfolio is worth initial_cash. Both parts are positive when initial_cash is. |
| `Rebalance.Rederive` | test2.py:52-60 | The flags are fully overwritten from yesterday. pending_sell iff close >= upper. pending_buy iff close < upper and close <= lower (sell is checked first). Never both. |
| `Rebalance.SellRebalances` | test2.py:63-67 | The sell keeps cash + shares * price, and leaves cash = total / 2 and shares * price = total / 2. Positive holdings stay positive. |
| `Rebalance.BuyRebalances` | test2.py:72-76 | The buy keeps cash + shares * price, and leaves shares * price = total / 2 and cash = total / 2. Positive holdings stay positive. |
| `Rebalance.SellMatchesBuy` | test2.py:63-76 | Over exact arithmetic the sell and buy formulas produce the same holdings. |
| `Rebalance.WeightInUnit` | test2.py:81-83 | For positive cash, shares and price, the recorded position shares * price / total_value lies strictly between 0 and 1, and times total_value gives the stock value. |
| `Rebalance.DayTriggers` | test2.py:51-78 | A sell fires iff yesterday's close >= yesterday's upper band and today's price < today's upper band. A buy fires iff yesterday's close < upper and <= lower, volume > 0 and price > today's lower band. Never both on one day. The flags left are never both set, and a fired trade's own flag is cleared. |
| `Rebalance.DayHoldings` | test2.py:62-78 | A day keeps cash + shares * price at today's price. After a trade, cash and stock value are each half of it. On a day without a trade, cash and shares are unchanged. Positivity is preserved. |
| `Rebalance.NoBuyWithoutVolume` | test2.py:72 | On a day with zero volume no buy fires, whatever the prices and flags. |
| `Backtest.Replay` | test2.py:21-83 | After the initial split and days 1 .. n-1, cash and shares stay positive, the two flags are never both true, and exactly n-1 values and n-1 positions have been recorded. |
| `Backtest.ReplayAppends` | test2.py:82-83 | The value and position series are append-only: the series after m days is a prefix of the series after n >= m days. |
| `Backtest.ReplayRecordsEachDay` | test2.py:80-88 | Entry k of the series belongs to row k + 1 (aligned with `data.iloc[1:]`). It is cash + shares * close and the equity weight after that day's trade. Values are positive and positions lie in (0, 1). |
| `Backtest.ReplayEventOrder` | test2.py:63-78 | buy_points and sell_points are strictly increasing and lie after the first row's date, up to the last handled day's. No date is in both lists, and together they hold at most n-1 events. |
| `Backtest.ReplayEventDays` | test2.py:62-78 | A handled day's date is in buy_points (sell_points) exactly when that day's buy (sell) fired. |
| `Backtest.ReplayEventsFired` | test2.py:68-77 | Every entry of buy_points (sell_points) is the date of a handled day whose buy (sell) fired. With ReplayEventDays, the lists hold exactly the fired days' dates. |
| `Backtest.Backtester.constructor` | test2.py:21-33 | The object starts in the state `Replay` gives before the loop: the 50:50 split, both flags false, all lists empty. |
| `Backtest.Backtester.Step` | test2.py:37-83 | One loop iteration takes the fields to exactly the state one `Replay` step gives. It keeps cash, shares > 0 and the two flags never both set. |
| `Backtest.Backtester.Run` | test2.py:36-83 | The loop over days 1 .. len(data)-1 leaves the fields equal to the full `Replay`. |
| `Backtest.RunBacktest` | test2.py:15-88 | With fewer than 20 bars the script fails reading the first close (None). Otherwise the result is the full replay over the band rows, with len(bars) - 20 values and positions. |
| `RocDate.Split` | test.py:20-22 | `split('/')` yields at least one field and no field contains the separator. |
| `RocDate.JoinSplit` | test.py:20-22 | Splitting loses nothing: joining the fields with the separator gives back the text. |
| `RocDate.ParseIntToString` | test.py:20-23 | Rendering an int in the f-string and reading it back with `int()` gives the same int. |
| `RocDate.ConvertDateErrors` | test.py:19-22 | `convert_date` raises ValueError exactly when the first field is not an integer; it raises IndexError exactly when the first field is an integer and there are fewer than three fields. |
| `RocDate.ConvertDateAnyYear` | test.py:19-23 | For any year field that `int()` reads as y, including leading zeros and a sign, "a/m/d" becomes str(y + 1911) + "-" + m + "-" + d. A fourth and further fields are ignored. |
| `RocDate.ConvertDateOfFields` | test.py:19-23 | "y/m/d" becomes str(y + 1911) + "-" + m + "-" + d, with month and day copied verbatim. A fourth and further fields are ignored. |
| `RocDate.ConvertDateRoundTrip` | test.py:19-23 | For a non-negative Gregorian year and month/day without '-', the output splits at '-' into exactly the year, month and day, and the year field reads as the ROC year + 1911. |
| `RocDate.StripCommas` | test.py:36-40 | The stripped field contains no ',' and is no longer than the original. |
| `RocDate.StripCommasAppend` | test.py:36-40 | Stripping works piece by piece, so all other characters are kept in order. |
| `RocDate.StripCommasIdempotent` | test.py:36-40 | Stripping twice equals stripping once. |
| `RocDate.StripUngroups` | test.py:36-40 | Stripping undoes the exchange's thousands grouping: the grouped numeral comes back as the plain digits. |
| `RocDate.ProcessMonth` | test.py:32-41 | A month's frame is built iff every date converts. It then has one row per quote, the converted date and all five numeric fields stripped. Otherwise the error is the conversion error of the first row that fails. |
| `Calendar.ThirtyTwoDaysFromFirst` | test.py:60 | 32 days after day 1 of any month is a day of the following month (December rolls into January of the next year). |
| `Calendar.NextMonthStart` | test.py:60 | The cursor step yields day 1 of the successor month, one month index later. It fails with OverflowError only in December 9999. |
| `Calendar.FetchCursor` | test.py:78-86 | The fetch loop visits the start date, then day 1 of each following month. Months strictly increase by one and each is visited once. Every visited cursor is <= the end date, and the count is the number of months from start to end. The loop overflows only when the end is in December 9999. |

## Left out

- HTTP fetching with `requests` (test.py:9-16) and `yfinance` (test2.py:12): network I/O. The backtest takes the bars as a parameter.
- CSV writing and appending, reading the last row back, `os.path.exists`, `time.sleep`, `argparse` and `print`: file, timing and command-line plumbing.
- `datetime.now()` and the `strptime`/`strftime` formatting: the end date and the start date are parameters of `FetchCursor`.
  - Times of day are not modelled. The cursor is always at midnight, so comparing it with the current moment is the same as comparing calendar dates.
- `get_last_date_from_file`: only its next-month expression (`NextMonthStart`) is modelled; reading the file is I/O.
- The rolling standard deviation (test2.py:16) needs a square root and pandas' sample convention (ddof = 1) in floating point. It is an input: one non-negative value per bar.
- Floating-point rounding: all money and price arithmetic is over exact reals.
- Plotting, font set-up and scatter marking of events (test2.py:4-8, 90-104): rendering only.
- `RocDate.ParseInt`: models Python's `int()` on an optional sign followed by ASCII digits. Surrounding whitespace, `_` digit separators and non-ASCII digits, which `int()` also accepts, are treated as ValueError.
- Backtest dates are integer day ordinals: only their order is used.
- Input validation: the script never checks that closes are positive or that dates increase. These are preconditions of the backtest (`GoodBars`, `GoodRows`), not error results.
- The window length (20), the band width (2 standard deviations) and the 50:50 target are constants, as in the script. The initial cash is a parameter that must be positive (the script uses 1,000,000).
- With fewer than 20 bars, `dropna` leaves an empty frame, and reading `data['Close'].iloc[0]` raises IndexError. `RunBacktest` returns None in that case.
- `Calendar.FetchCursor`: records every month as if fetching it succeeded. In the script, an exception while processing a month ends the loop at that month. The exception can be a `convert_date` ValueError or IndexError (the Failure of `ProcessMonth`) or a network error.
- Bars are assumed complete. In the script, `dropna` also removes a bar with a missing value, and every later row whose 20-day window contains it. The loop's "yesterday" then jumps across the gap; the model does not capture this.
