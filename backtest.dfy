/** The backtest equity panel (dashboard.py:78-89): the raw table, neither
    filtered nor sorted, plotted as one equity line. */
module Backtest {
  import opened Wrappers
  import opened Charts

  /** One row of the backtest equity file. */
  datatype EquityPoint = EquityPoint(timestamp: int, equity: real)

  const NotPresentNotice := Notice(Info, "backtest_equity.csv not present yet.")
  const EmptyNotice := Notice(Info, "Backtest equity is empty yet.")

  /** The equity line, one point per row in file order. */
  function EquityChart(points: seq<EquityPoint>): (r: Chart)
    ensures |r.traces| == 1 && r.traces[0].name == "Equity" && r.hlines == []
    ensures |r.traces[0].x| == |points| && |r.traces[0].y| == |points|
    ensures forall i | 0 <= i < |points| ::
              r.traces[0].x[i] == points[i].timestamp && r.traces[0].y[i] == Some(points[i].equity)
  {
    Chart([Series("Equity",
                  seq(|points|, i requires 0 <= i < |points| => points[i].timestamp),
                  seq(|points|, i requires 0 <= i < |points| => Some(points[i].equity)))],
          [])
  }

  /** The backtest panel tests the raw table for emptiness. */
  function EquityPanel(file: Option<seq<EquityPoint>>): (r: Panel<Chart>)
    ensures r.Outcome() == (if file.None? then FileAbsent
                            else if file.value == [] then EmptyResult
                            else Rendered)
    ensures r.NotPresent? ==> r.notice == NotPresentNotice
    ensures r.NoData? ==> r.notice == EmptyNotice
    ensures r.Render? ==> r.content == EquityChart(file.value)
  {
    match file
    case None => NotPresent(NotPresentNotice)
    case Some(points) =>
      if points != [] then Render(EquityChart(points)) else NoData(EmptyNotice)
  }
}
