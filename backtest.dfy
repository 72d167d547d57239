/**
  The backtest loop of test2.py (lines 21-88): the state threaded from day
  to day, its specification as a replay over the rows, the properties of
  that replay, and the loop itself as a class whose methods update the
  state in place.
*/
module Backtest {
  import opened Wrappers
  import opened Bands
  import opened Rebalance

  /** Everything the loop carries or appends to, after some number of days. */
  datatype Record = Record(
    holdings: Holdings,
    signal: Signal,
    buyPoints: seq<Date>,
    sellPoints: seq<Date>,
    portfolioValues: seq<real>,
    positions: seq<real>)

  /** The state before the loop: the 50:50 split at the first close, no flags, nothing recorded. */
  function Start(rows: seq<Row>, initialCash: real): Record
    requires |rows| > 0 && rows[0].close > 0.0
  {
    Record(InitialSplit(initialCash, rows[0].close), Signal(false, false), [], [], [], [])
  }

  /** One pass of the loop body for `today`, with `yesterday` the row before it. */
  function Advance(r: Record, yesterday: Row, today: Row): Record
    requires today.close > 0.0 && Positive(r.holdings)
  {
    var o := Day(r.holdings, yesterday, today);
    DayHoldings(r.holdings, yesterday, today);
    Record(
      o.holdings,
      o.signal,
      r.buyPoints + (if o.bought then [today.date] else []),
      r.sellPoints + (if o.sold then [today.date] else []),
      r.portfolioValues + [Value(o.holdings, today.close)],
      r.positions + [Weight(o.holdings, today.close)])
  }

  /**
    The state once the loop has handled days 1 .. n - 1 (so Replay(rows, c, |rows|)
    is the state after the whole loop). Cash and shares stay positive, the
    flags are never both set, and one value and one position are recorded
    per handled day.
  */
  function Replay(rows: seq<Row>, initialCash: real, n: nat): (r: Record)
    requires GoodRows(rows) && initialCash > 0.0
    requires 1 <= n <= |rows|
    ensures Positive(r.holdings)
    ensures !(r.signal.pendingBuy && r.signal.pendingSell)
    ensures |r.portfolioValues| == n - 1 && |r.positions| == n - 1
    decreases n
  {
    if n == 1 then Start(rows, initialCash)
    else
      var prev := Replay(rows, initialCash, n - 1);
      DayTriggers(prev.holdings, rows[n - 2], rows[n - 1]);
      Advance(prev, rows[n - 2], rows[n - 1])
  }

  /** Recorded values and positions are only ever appended to. */
  lemma {:induction false} ReplayAppends(rows: seq<Row>, initialCash: real, m: nat, n: nat)
    requires GoodRows(rows) && initialCash > 0.0
    requires 1 <= m <= n <= |rows|
    ensures var a, b := Replay(rows, initialCash, m), Replay(rows, initialCash, n);
      && a.portfolioValues == b.portfolioValues[..m - 1]
      && a.positions == b.positions[..m - 1]
    decreases n
  {
    if m < n {
      ReplayAppends(rows, initialCash, m, n - 1);
      var a, c := Replay(rows, initialCash, m), Replay(rows, initialCash, n - 1);
      var b := Replay(rows, initialCash, n);
      assert b.portfolioValues[..n - 2] == c.portfolioValues;
      assert b.positions[..n - 2] == c.positions;
    }
  }

  /**
    The values and positions are aligned with rows 1 .. |rows| - 1: entry k is
    the total value cash + shares * close and the equity weight of day k + 1,
    taken after that day's trade, and each weight lies strictly between 0 and 1.
  */
  lemma ReplayRecordsEachDay(rows: seq<Row>, initialCash: real, n: nat, k: nat)
    requires GoodRows(rows) && initialCash > 0.0
    requires 1 <= n <= |rows| && k < n - 1
    ensures var r, after := Replay(rows, initialCash, n), Replay(rows, initialCash, k + 2);
      && r.portfolioValues[k] == Value(after.holdings, rows[k + 1].close)
      && r.positions[k] == Weight(after.holdings, rows[k + 1].close)
      && r.portfolioValues[k] > 0.0
      && 0.0 < r.positions[k] < 1.0
  {
    ReplayAppends(rows, initialCash, k + 2, n);
    WeightInUnit(Replay(rows, initialCash, k + 2).holdings, rows[k + 1].close);
  }

  predicate StrictlyIncreasing(s: seq<Date>)
  {
    forall i, j :: 0 <= i < j < |s| ==> s[i] < s[j]
  }

  /** Whether day k (1 <= k < n) of the loop fired a buy, resp. a sell. */
  predicate BoughtOn(rows: seq<Row>, initialCash: real, k: nat)
    requires GoodRows(rows) && initialCash > 0.0
    requires 1 <= k < |rows|
  {
    Day(Replay(rows, initialCash, k).holdings, rows[k - 1], rows[k]).bought
  }

  predicate SoldOn(rows: seq<Row>, initialCash: real, k: nat)
    requires GoodRows(rows) && initialCash > 0.0
    requires 1 <= k < |rows|
  {
    Day(Replay(rows, initialCash, k).holdings, rows[k - 1], rows[k]).sold
  }

  /**
    The event lists are in strictly increasing date order, every event is
    dated within the handled days 1 .. n - 1, no date is both a buy and a
    sell, and no day contributes more than one event.
  */
  lemma {:induction false} ReplayEventOrder(rows: seq<Row>, initialCash: real, n: nat)
    requires GoodRows(rows) && initialCash > 0.0
    requires 1 <= n <= |rows|
    ensures var r := Replay(rows, initialCash, n);
      && StrictlyIncreasing(r.buyPoints) && StrictlyIncreasing(r.sellPoints)
      && (forall d :: d in r.buyPoints ==> rows[0].date < d <= rows[n - 1].date)
      && (forall d :: d in r.sellPoints ==> rows[0].date < d <= rows[n - 1].date)
      && (forall d :: d in r.buyPoints ==> d !in r.sellPoints)
      && |r.buyPoints| + |r.sellPoints| <= n - 1
    decreases n
  {
    if n > 1 {
      ReplayEventOrder(rows, initialCash, n - 1);
      var prev := Replay(rows, initialCash, n - 1);
      var r := Replay(rows, initialCash, n);
      var today := rows[n - 1];
      var o := Day(prev.holdings, rows[n - 2], today);
      DayTriggers(prev.holdings, rows[n - 2], today);
      assert r.buyPoints == prev.buyPoints + (if o.bought then [today.date] else []);
      assert r.sellPoints == prev.sellPoints + (if o.sold then [today.date] else []);
      assert rows[0].date <= rows[n - 2].date < today.date;
      AppendEvent(prev.buyPoints, o.bought, rows[0].date, rows[n - 2].date, today.date);
      AppendEvent(prev.sellPoints, o.sold, rows[0].date, rows[n - 2].date, today.date);
      assert today.date !in prev.buyPoints && today.date !in prev.sellPoints;
    }
  }

  /** Date d is the date of a handled day (1 .. n - 1) whose buy fired. */
  ghost predicate BuyFiredOn(rows: seq<Row>, initialCash: real, n: nat, d: Date)
    requires GoodRows(rows) && initialCash > 0.0
    requires n <= |rows|
  {
    exists k {:trigger BoughtOn(rows, initialCash, k)} ::
      1 <= k < n && rows[k].date == d && BoughtOn(rows, initialCash, k)
  }

  /** Date d is the date of a handled day (1 .. n - 1) whose sell fired. */
  ghost predicate SellFiredOn(rows: seq<Row>, initialCash: real, n: nat, d: Date)
    requires GoodRows(rows) && initialCash > 0.0
    requires n <= |rows|
  {
    exists k {:trigger SoldOn(rows, initialCash, k)} ::
      1 <= k < n && rows[k].date == d && SoldOn(rows, initialCash, k)
  }

  /** Every recorded buy (sell) is the date of a handled day whose buy (sell) fired. */
  lemma {:induction false} ReplayEventsFired(rows: seq<Row>, initialCash: real, n: nat)
    requires GoodRows(rows) && initialCash > 0.0
    requires 1 <= n <= |rows|
    ensures var r := Replay(rows, initialCash, n);
      && (forall d :: d in r.buyPoints ==> BuyFiredOn(rows, initialCash, n, d))
      && (forall d :: d in r.sellPoints ==> SellFiredOn(rows, initialCash, n, d))
    decreases n
  {
    if n > 1 {
      ReplayEventsFired(rows, initialCash, n - 1);
      var prev := Replay(rows, initialCash, n - 1);
      var r := Replay(rows, initialCash, n);
      var today := rows[n - 1];
      var o := Day(prev.holdings, rows[n - 2], today);
      assert r.buyPoints == prev.buyPoints + (if o.bought then [today.date] else []);
      assert r.sellPoints == prev.sellPoints + (if o.sold then [today.date] else []);
      assert BoughtOn(rows, initialCash, n - 1) == o.bought;
      assert SoldOn(rows, initialCash, n - 1) == o.sold;
      forall d | d in r.buyPoints ensures BuyFiredOn(rows, initialCash, n, d) {
        if d in prev.buyPoints {
          assert BuyFiredOn(rows, initialCash, n - 1, d);
          var k :| 1 <= k < n - 1 && rows[k].date == d && BoughtOn(rows, initialCash, k);
        }
      }
      forall d | d in r.sellPoints ensures SellFiredOn(rows, initialCash, n, d) {
        if d in prev.sellPoints {
          assert SellFiredOn(rows, initialCash, n - 1, d);
          var k :| 1 <= k < n - 1 && rows[k].date == d && SoldOn(rows, initialCash, k);
        }
      }
    }
  }

  /** Appending a date later than every recorded one keeps the list increasing and within bounds. */
  lemma AppendEvent(s: seq<Date>, fired: bool, first: Date, last: Date, today: Date)
    requires StrictlyIncreasing(s)
    requires forall d :: d in s ==> first < d <= last
    requires first <= last < today
    ensures var t := s + (if fired then [today] else []);
      && StrictlyIncreasing(t)
      && (forall d :: d in t ==> first < d <= today)
      && |t| == |s| + (if fired then 1 else 0)
  {
    var t := s + (if fired then [today] else []);
    forall i, j | 0 <= i < j < |t| ensures t[i] < t[j] {
      if j < |s| {
        assert t[i] == s[i] && t[j] == s[j];
      } else {
        assert s[i] in s;
      }
    }
  }

  /**
    A handled day's date is in the buy (resp. sell) list exactly when that
    day's buy (resp. sell) fired; ReplayEventsFired gives the converse for
    every entry of the lists.
  */
  lemma {:induction false} ReplayEventDays(rows: seq<Row>, initialCash: real, n: nat)
    requires GoodRows(rows) && initialCash > 0.0
    requires 1 <= n <= |rows|
    ensures var r := Replay(rows, initialCash, n);
      && (forall k {:trigger BoughtOn(rows, initialCash, k)} :: 1 <= k < n ==> (BoughtOn(rows, initialCash, k) <==> rows[k].date in r.buyPoints))
      && (forall k {:trigger SoldOn(rows, initialCash, k)} :: 1 <= k < n ==> (SoldOn(rows, initialCash, k) <==> rows[k].date in r.sellPoints))
    decreases n
  {
    if n > 1 {
      ReplayEventDays(rows, initialCash, n - 1);
      ReplayEventOrder(rows, initialCash, n - 1);
      var prev := Replay(rows, initialCash, n - 1);
      forall k | 1 <= k < n
        ensures BoughtOn(rows, initialCash, k) <==> rows[k].date in Replay(rows, initialCash, n).buyPoints
        ensures SoldOn(rows, initialCash, k) <==> rows[k].date in Replay(rows, initialCash, n).sellPoints
      {
        EventDayStep(rows, initialCash, n, k, prev);
      }
    }
  }

  /** One step of ReplayEventDays: day k's event status read off the lists after day n - 1. */
  lemma EventDayStep(rows: seq<Row>, initialCash: real, n: nat, k: nat, prev: Record)
    requires GoodRows(rows) && initialCash > 0.0
    requires 2 <= n <= |rows| && 1 <= k < n
    requires prev == Replay(rows, initialCash, n - 1)
    requires k < n - 1 ==> (BoughtOn(rows, initialCash, k) <==> rows[k].date in prev.buyPoints)
    requires k < n - 1 ==> (SoldOn(rows, initialCash, k) <==> rows[k].date in prev.sellPoints)
    requires forall d :: d in prev.buyPoints ==> d <= rows[n - 2].date
    requires forall d :: d in prev.sellPoints ==> d <= rows[n - 2].date
    ensures var r := Replay(rows, initialCash, n);
      && (BoughtOn(rows, initialCash, k) <==> rows[k].date in r.buyPoints)
      && (SoldOn(rows, initialCash, k) <==> rows[k].date in r.sellPoints)
  {
    var r := Replay(rows, initialCash, n);
    var today := rows[n - 1];
    var o := Day(prev.holdings, rows[n - 2], today);
    assert r.buyPoints == prev.buyPoints + (if o.bought then [today.date] else []);
    assert r.sellPoints == prev.sellPoints + (if o.sold then [today.date] else []);
    assert rows[n - 2].date < today.date;
    if k == n - 1 {
      assert today.date !in prev.buyPoints && today.date !in prev.sellPoints;
      assert BoughtOn(rows, initialCash, k) == o.bought;
      assert SoldOn(rows, initialCash, k) == o.sold;
    } else {
      assert rows[k].date < today.date;
    }
  }

  /**
    The loop of test2.py as an object: the variables the loop updates are
    its fields, and each pass of the loop body is one call of Step.
  */
  class Backtester {
    const rows: seq<Row>
    const initialCash: real
    var cash: real
    var shares: real
    var pendingBuy: bool
    var pendingSell: bool
    var buyPoints: seq<Date>
    var sellPoints: seq<Date>
    var portfolioValues: seq<real>
    var positions: seq<real>

    /** The loop state as a value. */
    function State(): Record
      reads this
    {
      Record(Holdings(cash, shares), Signal(pendingBuy, pendingSell),
             buyPoints, sellPoints, portfolioValues, positions)
    }

    /** Cash and shares stay positive and the two flags are never both set. */
    ghost predicate Valid()
      reads this
    {
      && GoodRows(rows) && |rows| > 0 && initialCash > 0.0
      && cash > 0.0 && shares > 0.0
      && !(pendingBuy && pendingSell)
    }

    /** The 50:50 split at the first close, before the loop. */
    constructor (rows: seq<Row>, initialCash: real)
      requires GoodRows(rows) && |rows| > 0 && initialCash > 0.0
      ensures Valid() && this.rows == rows && this.initialCash == initialCash
      ensures State() == Replay(rows, initialCash, 1)
    {
      this.rows := rows;
      this.initialCash := initialCash;
      var h := InitialSplit(initialCash, rows[0].close);
      cash, shares := h.cash, h.shares;
      pendingBuy, pendingSell := false, false;
      buyPoints, sellPoints := [], [];
      portfolioValues, positions := [], [];
      InitialSplitHalves(initialCash, rows[0].close);
    }

    /**
      The loop body for day i: overwrite the flags from yesterday, then the
      sell check, then the buy check, then record today's value and weight.
    */
    method Step(i: nat)
      requires Valid() && 1 <= i < |rows|
      modifies this
      ensures Valid()
      ensures State() == Advance(old(State()), rows[i - 1], rows[i])
    {
      var today, yesterday := rows[i], rows[i - 1];
      var price, volume := today.close, today.volume;
      ghost var o := Day(Holdings(cash, shares), yesterday, today);
      DayTriggers(Holdings(cash, shares), yesterday, today);
      DayHoldings(Holdings(cash, shares), yesterday, today);

      if yesterday.close >= yesterday.upper {
        pendingSell := true;
        pendingBuy := false;
      } else if yesterday.close <= yesterday.lower {
        pendingBuy := true;
        pendingSell := false;
      } else {
        pendingBuy := false;
        pendingSell := false;
      }

      if pendingSell && price < today.upper {
        var h := Sell(Holdings(cash, shares), price);
        cash, shares := h.cash, h.shares;
        sellPoints := sellPoints + [today.date];
        pendingSell := false;
      }

      if pendingBuy && volume > 0.0 && price > today.lower {
        var h := Buy(Holdings(cash, shares), price);
        cash, shares := h.cash, h.shares;
        buyPoints := buyPoints + [today.date];
        pendingBuy := false;
      }
      assert Holdings(cash, shares) == o.holdings;

      portfolioValues := portfolioValues + [Value(Holdings(cash, shares), price)];
      positions := positions + [Weight(Holdings(cash, shares), price)];
    }

    /** The whole loop: days 1 .. |rows| - 1 in order. */
    method Run()
      requires Valid() && State() == Replay(rows, initialCash, 1)
      modifies this
      ensures Valid()
      ensures State() == Replay(rows, initialCash, |rows|)
    {
      for i := 1 to |rows|
        invariant Valid()
        invariant State() == Replay(rows, initialCash, i)
      {
        Step(i);
      }
    }
  }

  /**
    The script end to end: build the band rows, seed the portfolio, run the
    loop. With fewer than Window bars `dropna` leaves no row and reading the
    first close fails, which is the None result. Otherwise one value and one
    position are recorded per row after the first.
  */
  method RunBacktest(bars: seq<Bar>, stds: seq<real>, initialCash: real) returns (result: Option<Record>)
    requires |stds| == |bars| && GoodBars(bars) && initialCash > 0.0
    ensures result.None? <==> |bars| < Window
    ensures result.Some? ==>
      && |result.value.portfolioValues| == |bars| - Window
      && |result.value.positions| == |bars| - Window
    ensures result.Some? ==>
      var rows := BuildRows(bars, stds);
      |rows| > 0 && result.value == Replay(rows, initialCash, |rows|)
  {
    var rows := BuildRows(bars, stds);
    BuildRowsGood(bars, stds);
    if |rows| == 0 {
      return None;
    }
    var b := new Backtester(rows, initialCash);
    b.Run();
    return Some(b.State());
  }
}
