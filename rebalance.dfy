/**
  The per-day rules of the 50:50 Bollinger rebalancing strategy
  (test2.py, lines 21-24 and 51-83): the initial split, the pending flags
  re-derived from yesterday's close, the sell and buy rebalances against
  today's price, and the recorded value and equity weight.

  Prices, cash and shares are reals, so the 50:50 split and the value
  conservation hold exactly where the source has them up to float rounding.
*/
module Rebalance {
  import opened Bands

  /** The portfolio: cash and a (fractional) number of shares. */
  datatype Holdings = Holdings(cash: real, shares: real)

  /** The two pending flags of the source, kept as two booleans. */
  datatype Signal = Signal(pendingBuy: bool, pendingSell: bool)

  /** The half of the total value each side is rebalanced to. */
  const Target: real := 0.5

  function Value(h: Holdings, price: real): real
  {
    h.cash + h.shares * price
  }

  predicate Positive(h: Holdings)
  {
    h.cash > 0.0 && h.shares > 0.0
  }

  /** Half the initial cash stays cash, the other half buys shares at the first close. */
  function InitialSplit(initialCash: real, firstClose: real): Holdings
    requires firstClose > 0.0
  {
    Holdings(initialCash * Target, (initialCash * Target) / firstClose)
  }

  /** The initial portfolio is worth the initial cash, split 50:50 by value at the first close. */
  lemma InitialSplitHalves(initialCash: real, firstClose: real)
    requires firstClose > 0.0
    ensures var h := InitialSplit(initialCash, firstClose);
      && h.cash == initialCash / 2.0
      && h.shares * firstClose == initialCash / 2.0
      && Value(h, firstClose) == initialCash
      && (initialCash > 0.0 ==> Positive(h))
  {
  }

  /**
    The flags are overwritten from yesterday's close and bands: sell is
    checked first, so a close on or above the upper band wins.
  */
  function Rederive(yesterdayClose: real, yesterdayUpper: real, yesterdayLower: real): (s: Signal)
    ensures s.pendingSell <==> yesterdayClose >= yesterdayUpper
    ensures s.pendingBuy <==> yesterdayClose < yesterdayUpper && yesterdayClose <= yesterdayLower
    ensures !(s.pendingBuy && s.pendingSell)
  {
    if yesterdayClose >= yesterdayUpper then Signal(false, true)
    else if yesterdayClose <= yesterdayLower then Signal(true, false)
    else Signal(false, false)
  }

  /** The sell leg: keep half the total value as cash, hold the other half in shares. */
  function Sell(h: Holdings, price: real): Holdings
    requires price > 0.0
  {
    var total := h.cash + h.shares * price;
    var targetCash := total * Target;
    Holdings(targetCash, (total - targetCash) / price)
  }

  /** The buy leg: put half the total value in shares, keep the rest as cash. */
  function Buy(h: Holdings, price: real): Holdings
    requires price > 0.0
  {
    var total := h.cash + h.shares * price;
    var targetStockValue := total * Target;
    Holdings(total - targetStockValue, targetStockValue / price)
  }

  /** A rebalance at a positive price keeps the total value and splits it 50:50. */
  predicate Rebalanced(before: Holdings, after: Holdings, price: real)
  {
    && Value(after, price) == Value(before, price)
    && after.cash == Value(before, price) / 2.0
    && after.shares * price == Value(before, price) / 2.0
    && (Positive(before) ==> Positive(after))
  }

  lemma SellRebalances(h: Holdings, price: real)
    requires price > 0.0
    ensures Rebalanced(h, Sell(h, price), price)
  {
  }

  lemma BuyRebalances(h: Holdings, price: real)
    requires price > 0.0
    ensures Rebalanced(h, Buy(h, price), price)
  {
  }

  /** Both legs land on the same holdings: they differ only in how they write the arithmetic. */
  lemma SellMatchesBuy(h: Holdings, price: real)
    requires price > 0.0
    ensures Sell(h, price) == Buy(h, price)
  {
  }

  /** A positive part of a larger whole is a fraction strictly between 0 and 1. */
  lemma FractionBelowOne(part: real, whole: real)
    requires 0.0 < part < whole
    ensures 0.0 < part / whole < 1.0
  {
    var w := part / whole;
    assert w * whole == part;
    if w >= 1.0 {
      assert false;
    }
  }

  /** The fraction of the total value held in shares. */
  function Weight(h: Holdings, price: real): real
    requires price > 0.0 && Positive(h)
  {
    var stock := h.shares * price;
    WeightDefined(h, price);
    stock / (h.cash + stock)
  }

  lemma WeightDefined(h: Holdings, price: real)
    requires price > 0.0 && Positive(h)
    ensures Value(h, price) > h.shares * price > 0.0
  {
  }

  /** The equity weight of a positive portfolio lies strictly between 0 and 1. */
  lemma WeightInUnit(h: Holdings, price: real)
    requires price > 0.0 && Positive(h)
    ensures 0.0 < Weight(h, price) < 1.0
    ensures Weight(h, price) * Value(h, price) == h.shares * price
  {
    WeightDefined(h, price);
    FractionBelowOne(h.shares * price, Value(h, price));
  }

  /** What one pass of the loop body does to the holdings and the flags. */
  datatype DayOutcome = DayOutcome(holdings: Holdings, signal: Signal, sold: bool, bought: bool)

  /**
    One day: re-derive the flags from yesterday, then the sell check, then the
    buy check, in the source's order; a fired leg clears its own flag.
  */
  function Day(h: Holdings, yesterday: Row, today: Row): (o: DayOutcome)
    requires today.close > 0.0
  {
    var price := today.close;
    var s := Rederive(yesterday.close, yesterday.upper, yesterday.lower);
    var sold := s.pendingSell && price < today.upper;
    var h1 := if sold then Sell(h, price) else h;
    var s1 := if sold then Signal(s.pendingBuy, false) else s;
    var bought := s1.pendingBuy && today.volume > 0.0 && price > today.lower;
    var h2 := if bought then Buy(h1, price) else h1;
    var s2 := if bought then Signal(false, s1.pendingSell) else s1;
    DayOutcome(h2, s2, sold, bought)
  }

  /**
    The trigger rules of a day: a sell fires exactly when yesterday's close
    reached yesterday's upper band and today's price is back under today's
    upper band; a buy fires exactly when yesterday's close was under the upper
    band and at or below the lower band, today has volume and today's price is
    back above today's lower band. Never both, and the flags left over are
    never both set, with the fired one cleared.
  */
  lemma DayTriggers(h: Holdings, yesterday: Row, today: Row)
    requires today.close > 0.0
    ensures var o := Day(h, yesterday, today);
      && (o.sold <==> yesterday.close >= yesterday.upper && today.close < today.upper)
      && (o.bought <==> && yesterday.close < yesterday.upper && yesterday.close <= yesterday.lower
                        && today.volume > 0.0 && today.close > today.lower)
      && !(o.sold && o.bought)
      && !(o.signal.pendingBuy && o.signal.pendingSell)
      && (o.sold ==> !o.signal.pendingSell)
      && (o.bought ==> !o.signal.pendingBuy)
  {
  }

  /**
    The holdings a day leaves: a trade keeps the total value at today's price
    and splits it 50:50; a day without a trade leaves cash and shares alone.
  */
  lemma DayHoldings(h: Holdings, yesterday: Row, today: Row)
    requires today.close > 0.0
    ensures var o := Day(h, yesterday, today);
      var p := today.close;
      && Value(o.holdings, p) == Value(h, p)
      && ((o.sold || o.bought) ==> o.holdings.cash == Value(h, p) / 2.0
                                   && o.holdings.shares * p == Value(h, p) / 2.0)
      && (!o.sold && !o.bought ==> o.holdings == h)
      && (Positive(h) ==> Positive(o.holdings))
  {
    var p := today.close;
    SellRebalances(h, p);
    BuyRebalances(Sell(h, p), p);
    BuyRebalances(h, p);
  }

  /** With no volume a pending buy never fires, whatever the prices. */
  lemma NoBuyWithoutVolume(h: Holdings, yesterday: Row, today: Row)
    requires today.close > 0.0 && today.volume <= 0.0
    ensures !Day(h, yesterday, today).bought
  {
  }
}
