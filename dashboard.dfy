/** The whole page (dashboard.py): four independent panels in a fixed order,
    each a function of its own file only. */
module Dashboard {
  import opened Wrappers
  import opened Charts
  import Candles
  import Positions
  import Backtest

  /** The three data files as read on one refresh; None where the file does
      not exist. The positions file feeds two panels. */
  datatype Files = Files(
    candles: Option<Candles.CandleTable>,
    positions: Option<seq<Positions.Position>>,
    backtest: Option<seq<Backtest.EquityPoint>>)

  /** The rendered page, top to bottom. */
  datatype Page = Page(
    candles: Panel<Candles.CandleView>,
    openPositions: Panel<seq<Positions.Position>>,
    closedTrades: Panel<Positions.ClosedView>,
    backtest: Panel<Chart>)

  /** The page, panels in their fixed order. The outcome of every panel is
      decided per panel: an absent file always gives the "not present"
      notice; the two position panels test emptiness after their status
      filter, the backtest panel tests the raw table, and the candle panel
      never reports empty. */
  function RenderPage(files: Files): (p: Page)
    ensures p.candles == Candles.CandlePanel(files.candles)
    ensures p.openPositions == Positions.OpenPanel(files.positions)
    ensures p.closedTrades == Positions.ClosedPanel(files.positions)
    ensures p.backtest == Backtest.EquityPanel(files.backtest)
    ensures files.candles.None? <==> p.candles.Outcome() == FileAbsent
    ensures p.candles.Outcome() != EmptyResult
    ensures files.positions.None? <==> p.openPositions.Outcome() == FileAbsent
    ensures files.positions.None? <==> p.closedTrades.Outcome() == FileAbsent
    ensures files.backtest.None? <==> p.backtest.Outcome() == FileAbsent
    ensures p.openPositions.Outcome() == EmptyResult <==>
              files.positions.Some? && Positions.OpenPositions(files.positions.value) == []
    ensures p.closedTrades.Outcome() == EmptyResult <==>
              files.positions.Some? && Positions.ClosedTrades(files.positions.value) == []
    ensures p.backtest.Outcome() == EmptyResult <==>
              files.backtest.Some? && files.backtest.value == []
  {
    var candles := Candles.CandlePanel(files.candles);
    var open := Positions.OpenPanel(files.positions);
    var closed := Positions.ClosedPanel(files.positions);
    var backtest := Backtest.EquityPanel(files.backtest);
    assert files.positions.None? <==> open.Outcome() == FileAbsent;
    assert files.positions.None? <==> closed.Outcome() == FileAbsent;
    Page(candles, open, closed, backtest)
  }

  /** A ledger with no CLOSED row gives the "no closed trades" notice even
      when it has other rows. */
  lemma NoClosedRowsMeansNoData(ledger: seq<Positions.Position>)
    requires forall i | 0 <= i < |ledger| :: ledger[i].status != "CLOSED"
    ensures Positions.ClosedPanel(Some(ledger)) == NoData(Positions.NoClosedNotice)
  {
  }

  /** Each panel depends on its own file only: changing or removing one file
      leaves the panels of the others as they were. */
  lemma PanelsAreIsolated(f1: Files, f2: Files)
    ensures f1.candles == f2.candles ==> RenderPage(f1).candles == RenderPage(f2).candles
    ensures f1.positions == f2.positions ==>
              && RenderPage(f1).openPositions == RenderPage(f2).openPositions
              && RenderPage(f1).closedTrades == RenderPage(f2).closedTrades
    ensures f1.backtest == f2.backtest ==> RenderPage(f1).backtest == RenderPage(f2).backtest
  {
  }
}
