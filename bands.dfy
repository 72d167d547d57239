/**
  Bollinger bands over the daily close series (test2.py, lines 14-19).

  The 20-day moving average is computed exactly over reals. The 20-day
  standard deviation needs a square root and pandas' sample convention, so it
  is an input: one non-negative value per bar, aligned with the bars.
*/
module Bands {

  /** A trading day's timestamp; only its order matters to the backtest. */
  type Date = int

  /** One downloaded trading day. */
  datatype Bar = Bar(date: Date, close: real, volume: real)

  /** A day that survived `dropna`: the bar together with its band columns. */
  datatype Row = Row(date: Date, close: real, volume: real,
                     ma: real, std: real, upper: real, lower: real)

  /** The rolling window length, in trading days. */
  const Window: nat := 20
  /** The band half-width is two standard deviations. */
  const Width: real := 2.0

  function Sum(s: seq<real>): real
  {
    if s == [] then 0.0 else Sum(s[..|s| - 1]) + s[|s| - 1]
  }

  function Mean(s: seq<real>): real
    requires |s| > 0
  {
    Sum(s) / (|s| as real)
  }

  /** A sum of values bounded by `lo` and `hi` lies between |s|*lo and |s|*hi. */
  lemma {:induction false} SumBounds(s: seq<real>, lo: real, hi: real)
    requires forall i :: 0 <= i < |s| ==> lo <= s[i] <= hi
    ensures (|s| as real) * lo <= Sum(s) <= (|s| as real) * hi
  {
    if s != [] {
      var init := s[..|s| - 1];
      assert forall i :: 0 <= i < |init| ==> init[i] == s[i];
      SumBounds(init, lo, hi);
      assert (|s| as real) * lo == (|init| as real) * lo + lo;
      assert (|s| as real) * hi == (|init| as real) * hi + hi;
    }
  }

  /** The mean of a window lies between any lower and upper bound of its values. */
  lemma MeanBounds(s: seq<real>, lo: real, hi: real)
    requires |s| > 0
    requires forall i :: 0 <= i < |s| ==> lo <= s[i] <= hi
    ensures lo <= Mean(s) <= hi
  {
    SumBounds(s, lo, hi);
    var n := |s| as real;
    assert Sum(s) / n >= lo by {
      assert n * lo <= Sum(s);
    }
    assert Sum(s) / n <= hi by {
      assert Sum(s) <= n * hi;
    }
  }

  function Closes(bars: seq<Bar>): (cs: seq<real>)
    ensures |cs| == |bars|
    ensures forall i :: 0 <= i < |bars| ==> cs[i] == bars[i].close
  {
    seq(|bars|, i requires 0 <= i < |bars| => bars[i].close)
  }

  /** The closes of the 20 bars ending at bar `i`. */
  function WindowCloses(bars: seq<Bar>, i: nat): (w: seq<real>)
    requires Window - 1 <= i < |bars|
    ensures |w| == Window
    ensures forall k :: 0 <= k < Window ==> w[k] == bars[i + 1 - Window + k].close
  {
    Closes(bars)[i + 1 - Window .. i + 1]
  }

  /** The row pandas holds for bar `i` once MA20, STD20, Upper and Lower are filled in. */
  function BandRow(bars: seq<Bar>, stds: seq<real>, i: nat): Row
    requires |stds| == |bars|
    requires Window - 1 <= i < |bars|
  {
    var ma := Mean(WindowCloses(bars, i));
    Row(bars[i].date, bars[i].close, bars[i].volume,
        ma, stds[i], ma + Width * stds[i], ma - Width * stds[i])
  }

  /**
    The frame after `dropna`: the first Window - 1 bars have no full window and
    are dropped; every later bar keeps its own date, close and volume.
  */
  function BuildRows(bars: seq<Bar>, stds: seq<real>): (rows: seq<Row>)
    requires |stds| == |bars|
    ensures |rows| == if |bars| < Window then 0 else |bars| - (Window - 1)
    ensures forall k :: 0 <= k < |rows| ==> rows[k] == BandRow(bars, stds, k + Window - 1)
    ensures forall k :: 0 <= k < |rows| ==>
      var b := bars[k + Window - 1];
      rows[k].date == b.date && rows[k].close == b.close && rows[k].volume == b.volume
  {
    var n := if |bars| < Window then 0 else |bars| - (Window - 1);
    seq(n, k requires 0 <= k < n => BandRow(bars, stds, k + Window - 1))
  }

  /** Every close is positive and the dates strictly increase. */
  predicate GoodBars(bars: seq<Bar>)
  {
    && (forall i :: 0 <= i < |bars| ==> bars[i].close > 0.0)
    && (forall i, j :: 0 <= i < j < |bars| ==> bars[i].date < bars[j].date)
  }

  /**
    The same contract stated for the rows the loop reads. Rows carry band
    columns that bars do not, so the two record types need one predicate
    each; BuildRowsGood proves the row form from the bar form.
  */
  predicate GoodRows(rows: seq<Row>)
  {
    && (forall i :: 0 <= i < |rows| ==> rows[i].close > 0.0)
    && (forall i, j :: 0 <= i < j < |rows| ==> rows[i].date < rows[j].date)
  }

  /**
    Each surviving row satisfies Lower <= MA20 <= Upper, with
    Upper - MA20 == MA20 - Lower == 2 * STD20, and MA20 lies between the
    smallest and largest close of its window.
  */
  lemma BandOrder(bars: seq<Bar>, stds: seq<real>, k: nat, lo: real, hi: real)
    requires |stds| == |bars|
    requires forall i :: 0 <= i < |stds| ==> stds[i] >= 0.0
    requires k < |BuildRows(bars, stds)|
    requires forall j :: k <= j < k + Window ==> lo <= bars[j].close <= hi
    ensures var r := BuildRows(bars, stds)[k];
      && r.lower <= r.ma <= r.upper
      && r.upper - r.ma == Width * r.std && r.ma - r.lower == Width * r.std
      && lo <= r.ma <= hi
  {
    var w := WindowCloses(bars, k + Window - 1);
    assert BuildRows(bars, stds)[k] == BandRow(bars, stds, k + Window - 1);
    MeanBounds(w, lo, hi);
  }

  /** Dropping the leading rows keeps positive closes and increasing dates. */
  lemma BuildRowsGood(bars: seq<Bar>, stds: seq<real>)
    requires |stds| == |bars|
    requires GoodBars(bars)
    ensures GoodRows(BuildRows(bars, stds))
  {
    var rows := BuildRows(bars, stds);
    forall i, j | 0 <= i < j < |rows| ensures rows[i].date < rows[j].date {
      assert rows[i].date == bars[i + Window - 1].date;
      assert rows[j].date == bars[j + Window - 1].date;
    }
  }
}
