/** The candle panel (dashboard.py:16-48): a candlestick chart of the price
    series and two indicator sub-charts that appear only when their columns
    are in the file. */
module Candles {
  import opened Wrappers
  import opened Tables
  import opened Charts

  /** One candle row: its timestamp, its OHLC prices and the values of any
      further numeric columns (RSI, MACD, Signal, ...) keyed by column name;
      a column missing from a row's map is a blank cell. */
  datatype Candle = Candle(timestamp: int, open: real, high: real, low: real, close: real,
                           cells: map<string, real>)

  /** A loaded candle file: its header and its rows in file order. */
  datatype CandleTable = CandleTable(columns: set<string>, rows: seq<Candle>)

  /** The candle view: price chart, RSI cell and MACD cell. */
  datatype CandleView = CandleView(price: Candlestick, rsi: SubPanel, macd: SubPanel)

  const NoFileNotice := Notice(Warning, "No candle file yet. Run bot.py to generate data.")
  const NoRsiNotice := Notice(Info, "RSI not found yet.")
  const NoMacdNotice := Notice(Info, "MACD/Signal not found yet.")

  /** Overbought and oversold reference levels of the RSI chart. */
  const Overbought: real := 70.0
  const Oversold: real := 30.0

  function TimestampOf(c: Candle): int { c.timestamp }

  /** The rows ordered by timestamp, the one series every chart is fed. */
  function SortedCandles(t: CandleTable): (r: seq<Candle>)
    ensures SortedBy(r, TimestampOf)
    ensures multiset(r) == multiset(t.rows)
  {
    SortBy(t.rows, TimestampOf)
  }

  function Timestamps(rows: seq<Candle>): (r: seq<int>)
    ensures |r| == |rows|
    ensures forall i | 0 <= i < |r| :: r[i] == rows[i].timestamp
  {
    seq(|rows|, i requires 0 <= i < |rows| => rows[i].timestamp)
  }

  /** The values of column name, one per row, None where the cell is blank. */
  function Column(rows: seq<Candle>, name: string): (r: seq<Option<real>>)
    ensures |r| == |rows|
    ensures forall i | 0 <= i < |r| :: r[i].Some? <==> name in rows[i].cells
    ensures forall i | 0 <= i < |r| :: r[i].Some? ==> r[i].value == rows[i].cells[name]
  {
    seq(|rows|, i requires 0 <= i < |rows| =>
                  if name in rows[i].cells then Some(rows[i].cells[name]) else None)
  }

  /** The price chart: one OHLC bar per row, in the order of rows. */
  function PriceChart(rows: seq<Candle>): (r: Candlestick)
    ensures r.name == "NIFTY" && r.x == Timestamps(rows)
    ensures |r.open| == |r.high| == |r.low| == |r.close| == |rows|
    ensures forall i | 0 <= i < |rows| ::
              && r.open[i] == rows[i].open && r.high[i] == rows[i].high
              && r.low[i] == rows[i].low && r.close[i] == rows[i].close
  {
    Candlestick("NIFTY", Timestamps(rows),
                seq(|rows|, i requires 0 <= i < |rows| => rows[i].open),
                seq(|rows|, i requires 0 <= i < |rows| => rows[i].high),
                seq(|rows|, i requires 0 <= i < |rows| => rows[i].low),
                seq(|rows|, i requires 0 <= i < |rows| => rows[i].close))
  }

  /** The RSI cell: a chart with reference lines at 70 and 30 when the file
      has an RSI column, the placeholder otherwise. */
  function RsiCell(columns: set<string>, rows: seq<Candle>): (r: SubPanel)
    ensures r.Plot? <==> "RSI" in columns
    ensures r.Placeholder? ==> r.notice == NoRsiNotice
    ensures r.Plot? ==> && r.chart.traces == [Series("RSI", Timestamps(rows), Column(rows, "RSI"))]
                        && (set h | h in r.chart.hlines) == {70.0, 30.0}
  {
    if "RSI" in columns then
      Plot(Chart([Series("RSI", Timestamps(rows), Column(rows, "RSI"))], [Overbought, Oversold]))
    else Placeholder(NoRsiNotice)
  }

  /** The MACD cell: a chart with the MACD and Signal traces when the file has
      both columns, the placeholder otherwise. */
  function MacdCell(columns: set<string>, rows: seq<Candle>): (r: SubPanel)
    ensures r.Plot? <==> "MACD" in columns && "Signal" in columns
    ensures r.Placeholder? ==> r.notice == NoMacdNotice
    ensures r.Plot? ==> && r.chart.traces == [Series("MACD", Timestamps(rows), Column(rows, "MACD")),
                                              Series("Signal", Timestamps(rows), Column(rows, "Signal"))]
                        && r.chart.hlines == []
  {
    if "MACD" in columns && "Signal" in columns then
      Plot(Chart([Series("MACD", Timestamps(rows), Column(rows, "MACD")),
                  Series("Signal", Timestamps(rows), Column(rows, "Signal"))], []))
    else Placeholder(NoMacdNotice)
  }

  /** The three charts of a loaded candle file, all drawn over one x axis:
      the file's timestamps, each once, in non-decreasing order. */
  function View(t: CandleTable): (r: CandleView)
    ensures r.price == PriceChart(SortedCandles(t))
    ensures r.rsi == RsiCell(t.columns, SortedCandles(t))
    ensures r.macd == MacdCell(t.columns, SortedCandles(t))
    ensures |r.price.x| == |t.rows|
    ensures forall i, j | 0 <= i < j < |r.price.x| :: r.price.x[i] <= r.price.x[j]
    ensures multiset(r.price.x) == multiset(Timestamps(t.rows))
    ensures r.rsi.Plot? ==> forall s | s in r.rsi.chart.traces :: s.x == r.price.x
    ensures r.macd.Plot? ==> forall s | s in r.macd.chart.traces :: s.x == r.price.x
  {
    var rows := SortedCandles(t);
    TimestampsPermutation(rows, t.rows);
    assert |rows| == |multiset(rows)| == |t.rows|;
    CandleView(PriceChart(rows), RsiCell(t.columns, rows), MacdCell(t.columns, rows))
  }

  /** The candle panel has no empty check: it renders whenever the file
      exists, even with no rows. */
  function CandlePanel(file: Option<CandleTable>): (r: Panel<CandleView>)
    ensures r.Outcome() == (if file.Some? then Rendered else FileAbsent)
    ensures file.None? ==> r.notice == NoFileNotice
    ensures file.Some? ==> r == Render(View(file.value))
  {
    match file
    case None => NotPresent(NoFileNotice)
    case Some(t) => Render(View(t))
  }

  lemma {:induction false} TimestampsAppend(a: seq<Candle>, b: seq<Candle>)
    ensures Timestamps(a + b) == Timestamps(a) + Timestamps(b)
  {
    assert |Timestamps(a + b)| == |Timestamps(a) + Timestamps(b)|;
    forall i | 0 <= i < |a| + |b|
      ensures Timestamps(a + b)[i] == (Timestamps(a) + Timestamps(b))[i]
    {
      if i < |a| {
        assert (a + b)[i] == a[i];
      } else {
        assert (a + b)[i] == b[i - |a|];
      }
    }
  }

  /** Taking row k out of b takes its timestamp out of b's timestamps. */
  lemma TimestampsWithout(b: seq<Candle>, k: nat)
    requires k < |b|
    ensures multiset(Timestamps(b)) == multiset(Timestamps(b[..k] + b[k + 1..])) + multiset{b[k].timestamp}
  {
    var left, right := b[..k], b[k + 1..];
    assert b == left + [b[k]] + right;
    TimestampsAppend(left + [b[k]], right);
    TimestampsAppend(left, [b[k]]);
    TimestampsAppend(left, right);
    assert Timestamps([b[k]]) == [b[k].timestamp];
  }

  /** If the timestamps of a's tail and of b without row k agree as
      multisets, and row k of b is a's head, the timestamps of a and b agree. */
  lemma TimestampsMatchingHead(a: seq<Candle>, b: seq<Candle>, k: nat)
    requires a != [] && k < |b| && b[k] == a[0]
    requires multiset(Timestamps(a[1..])) == multiset(Timestamps(b[..k] + b[k + 1..]))
    ensures multiset(Timestamps(a)) == multiset(Timestamps(b))
  {
    assert multiset(Timestamps(a)) == multiset{a[0].timestamp} + multiset(Timestamps(a[1..])) by {
      assert a == [a[0]] + a[1..];
      TimestampsAppend([a[0]], a[1..]);
      assert Timestamps([a[0]]) == [a[0].timestamp];
    }
    TimestampsWithout(b, k);
  }

  /** Reordering rows reorders their timestamps the same way. */
  lemma {:induction false} TimestampsPermutation(a: seq<Candle>, b: seq<Candle>)
    requires multiset(a) == multiset(b)
    ensures multiset(Timestamps(a)) == multiset(Timestamps(b))
  {
    if a != [] {
      assert a[0] in multiset(b);
      var k :| 0 <= k < |b| && b[k] == a[0];
      PermutationWithout(a, b, k);
      TimestampsPermutation(a[1..], b[..k] + b[k + 1..]);
      TimestampsMatchingHead(a, b, k);
    } else {
      assert |b| == |multiset(b)| == 0;
    }
  }

  /** The RSI decision looks only at the RSI column and the MACD decision
      only at the MACD and Signal columns. */
  lemma IndicatorDecisionsIndependent(t1: CandleTable, t2: CandleTable)
    requires t1.rows == t2.rows
    ensures ("RSI" in t1.columns <==> "RSI" in t2.columns) ==> View(t1).rsi == View(t2).rsi
    ensures && ("MACD" in t1.columns <==> "MACD" in t2.columns)
            && ("Signal" in t1.columns <==> "Signal" in t2.columns)
            ==> View(t1).macd == View(t2).macd
  {
  }
}
