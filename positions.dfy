/** The position ledger and the two panels derived from it: open positions
    (dashboard.py:50-60) and closed trades with cumulative PnL
    (dashboard.py:62-76). */
module Positions {
  import opened Wrappers
  import opened Tables
  import opened Charts

  /** One ledger row. Times are comparable instants; pnl is a whole amount so
      that running sums are exact. */
  datatype Position = Position(entryTime: int, exitTime: int, status: string, pnl: int)

  /** A closed trade with the derived `pnl_cum` column. */
  datatype ClosedRow = ClosedRow(trade: Position, pnlCum: int)

  /** The rendered closed-trades panel: the grid and the cumulative PnL chart. */
  datatype ClosedView = ClosedView(grid: seq<ClosedRow>, chart: Chart)

  /** Number of most recent closed trades the grid shows. */
  const GridRows: nat := 200

  const NotPresentNotice := Notice(Info, "positions.csv not present yet.")
  const NoOpenNotice := Notice(Success, "No open positions.")
  const NoClosedNotice := Notice(Info, "No closed trades yet.")

  /** Status tests are exact, case-sensitive string comparisons. */
  predicate IsOpen(p: Position) { p.status == "OPEN" }
  predicate IsClosed(p: Position) { p.status == "CLOSED" }

  function ExitTime(p: Position): int { p.exitTime }

  /** The ledger rows whose status is "OPEN". */
  function OpenPositions(ledger: seq<Position>): (r: seq<Position>)
    ensures forall p | p in r :: IsOpen(p)
    ensures forall p :: multiset(r)[p] == if IsOpen(p) then multiset(ledger)[p] else 0
    ensures IsSubsequence(r, ledger)
  {
    Keep(ledger, IsOpen)
  }

  /** The ledger rows whose status is "CLOSED", ordered by exit time. */
  function ClosedTrades(ledger: seq<Position>): (r: seq<Position>)
    ensures SortedBy(r, ExitTime)
    ensures forall p | p in r :: IsClosed(p)
    ensures forall p :: multiset(r)[p] == if IsClosed(p) then multiset(ledger)[p] else 0
    ensures multiset(r) == multiset(Keep(ledger, IsClosed))
  {
    var kept := Keep(ledger, IsClosed);
    var sorted := SortBy(kept, ExitTime);
    assert multiset(sorted) == multiset(kept);
    sorted
  }

  /** Sum of pnl over a sequence of trades. */
  function TotalPnl(trades: seq<Position>): int
  {
    if trades == [] then 0 else trades[0].pnl + TotalPnl(trades[1..])
  }

  lemma {:induction false} TotalPnlAppend(a: seq<Position>, b: seq<Position>)
    ensures TotalPnl(a + b) == TotalPnl(a) + TotalPnl(b)
  {
    if a == [] {
      assert a + b == b;
    } else {
      assert (a + b)[1..] == a[1..] + b;
      TotalPnlAppend(a[1..], b);
    }
  }

  /** The total pnl does not depend on the order of the trades. */
  lemma {:induction false} TotalPnlPermutation(a: seq<Position>, b: seq<Position>)
    requires multiset(a) == multiset(b)
    ensures TotalPnl(a) == TotalPnl(b)
  {
    if a != [] {
      assert a[0] in multiset(b);
      var k :| 0 <= k < |b| && b[k] == a[0];
      assert b == b[..k] + [b[k]] + b[k + 1..];
      var rest := b[..k] + b[k + 1..];
      PermutationWithout(a, b, k);
      TotalPnlPermutation(a[1..], rest);
      TotalPnlAppend(b[..k] + [b[k]], b[k + 1..]);
      TotalPnlAppend(b[..k], [b[k]]);
      TotalPnlAppend(b[..k], b[k + 1..]);
    }
  }

  /** `cumsum` of pnl, started from base: row i carries base plus the pnl of
      trades 0..i. */
  function AccumulateFrom(trades: seq<Position>, base: int): (r: seq<ClosedRow>)
    ensures |r| == |trades|
    ensures forall i {:trigger r[i]} | 0 <= i < |r| :: r[i].trade == trades[i]
    ensures forall i | 0 <= i < |r| :: r[i].pnlCum == base + TotalPnl(trades[..i + 1])
  {
    if trades == [] then []
    else
      var running := base + trades[0].pnl;
      var rest := AccumulateFrom(trades[1..], running);
      assert forall i | 1 <= i < |trades| :: trades[..i + 1][1..] == trades[1..][..i];
      [ClosedRow(trades[0], running)] + rest
  }

  /** The closed trades with their `pnl_cum` column. */
  function WithPnlCum(trades: seq<Position>): (r: seq<ClosedRow>)
    ensures |r| == |trades|
    ensures forall i {:trigger r[i]} | 0 <= i < |r| :: r[i].trade == trades[i]
    ensures forall i | 0 <= i < |r| :: r[i].pnlCum == TotalPnl(trades[..i + 1])
  {
    AccumulateFrom(trades, 0)
  }

  /** The "Cum PnL" line: one point per accumulated row, at its exit time. */
  function PnlChart(rows: seq<ClosedRow>): (r: Chart)
    ensures |r.traces| == 1 && r.traces[0].name == "Cum PnL" && r.hlines == []
    ensures |r.traces[0].x| == |rows| && |r.traces[0].y| == |rows|
    ensures forall i | 0 <= i < |rows| ::
              r.traces[0].x[i] == rows[i].trade.exitTime
              && r.traces[0].y[i] == Some(rows[i].pnlCum as real)
  {
    Chart([Series("Cum PnL",
                  seq(|rows|, i requires 0 <= i < |rows| => rows[i].trade.exitTime),
                  seq(|rows|, i requires 0 <= i < |rows| => Some(rows[i].pnlCum as real)))],
          [])
  }

  /** The open-positions panel for a ledger file that may be absent. */
  function OpenPanel(file: Option<seq<Position>>): (r: Panel<seq<Position>>)
    ensures file.None? ==> r == NotPresent(NotPresentNotice)
    ensures file.Some? ==> (r.Render? <==> OpenPositions(file.value) != [])
    ensures file.Some? && OpenPositions(file.value) == [] ==> r == NoData(NoOpenNotice)
    ensures r.Render? ==> r.content == OpenPositions(file.value)
  {
    match file
    case None => NotPresent(NotPresentNotice)
    case Some(ledger) =>
      var open := OpenPositions(ledger);
      if open != [] then Render(open) else NoData(NoOpenNotice)
  }

  /** The closed-trades panel for a ledger file that may be absent: the grid
      holds the last GridRows rows of the accumulated table, the chart all of
      them. */
  function ClosedPanel(file: Option<seq<Position>>): (r: Panel<ClosedView>)
    ensures file.None? ==> r == NotPresent(NotPresentNotice)
    ensures file.Some? ==> (r.Render? <==> ClosedTrades(file.value) != [])
    ensures file.Some? && ClosedTrades(file.value) == [] ==> r == NoData(NoClosedNotice)
    ensures r.Render? ==>
              var full := WithPnlCum(ClosedTrades(file.value));
              r.content == ClosedView(Tail(full, GridRows), PnlChart(full))
  {
    match file
    case None => NotPresent(NotPresentNotice)
    case Some(ledger) =>
      var closed := ClosedTrades(ledger);
      if closed != [] then
        var full := WithPnlCum(closed);
        Render(ClosedView(Tail(full, GridRows), PnlChart(full)))
      else NoData(NoClosedNotice)
  }

  /** Only rows whose status is exactly "OPEN" or exactly "CLOSED" are shown,
      each in its own panel; any other status, including a different case, is
      dropped from both. */
  lemma StatusesPartitionLedger(ledger: seq<Position>, p: Position)
    ensures p in ledger && p.status == "OPEN" ==> p in OpenPositions(ledger)
    ensures p in ledger && p.status == "CLOSED" ==> p in ClosedTrades(ledger)
    ensures !(p in OpenPositions(ledger) && p in ClosedTrades(ledger))
    ensures p.status != "OPEN" && p.status != "CLOSED" ==>
              p !in OpenPositions(ledger) && p !in ClosedTrades(ledger)
  {
    assert p in OpenPositions(ledger) <==> multiset(OpenPositions(ledger))[p] > 0;
    assert p in ClosedTrades(ledger) <==> multiset(ClosedTrades(ledger))[p] > 0;
  }

  /** The last `pnl_cum` is the total pnl of the CLOSED rows, summed in
      ledger order rather than in exit-time order. */
  lemma {:induction false} FinalPnlCumIsClosedTotal(ledger: seq<Position>)
    ensures var full := WithPnlCum(ClosedTrades(ledger));
            full != [] ==> full[|full| - 1].pnlCum == TotalPnl(Keep(ledger, IsClosed))
  {
    var closed := ClosedTrades(ledger);
    if closed != [] {
      assert closed[..|closed|] == closed;
      TotalPnlPermutation(closed, Keep(ledger, IsClosed));
    }
  }

  /** Reordering the ledger file changes neither whether there are closed
      trades nor the final cumulative PnL. */
  lemma {:induction false} FinalPnlCumIgnoresRowOrder(ledger1: seq<Position>, ledger2: seq<Position>)
    requires multiset(ledger1) == multiset(ledger2)
    ensures |ClosedTrades(ledger1)| == |ClosedTrades(ledger2)|
    ensures var full1, full2 := WithPnlCum(ClosedTrades(ledger1)), WithPnlCum(ClosedTrades(ledger2));
            full1 != [] ==> full1[|full1| - 1].pnlCum == full2[|full2| - 1].pnlCum
  {
    var k1, k2 := Keep(ledger1, IsClosed), Keep(ledger2, IsClosed);
    assert forall x :: multiset(k1)[x] == multiset(k2)[x];
    assert multiset(k1) == multiset(k2);
    assert |ClosedTrades(ledger1)| == |multiset(k1)| == |ClosedTrades(ledger2)|;
    FinalPnlCumIsClosedTotal(ledger1);
    FinalPnlCumIsClosedTotal(ledger2);
    TotalPnlPermutation(k1, k2);
  }

  /** `grid` is the last min(|closed|, GridRows) rows of the accumulated
      table of `closed`: row i shows trade skipped + i with its prefix sum
      over ALL of `closed`, not just over the rows shown. */
  predicate HoldsLastRows(grid: seq<ClosedRow>, closed: seq<Position>)
  {
    var skipped := |closed| - |grid|;
    && |grid| == (if |closed| < GridRows then |closed| else GridRows)
    && (forall i | 0 <= i < |grid| ::
          grid[i].trade == closed[skipped + i]
          && grid[i].pnlCum == TotalPnl(closed[..skipped + i + 1]))
  }

  /** The grid is the last min(n, GridRows) rows of the full accumulated
      table, so its `pnl_cum` values are prefix sums over ALL closed trades. */
  lemma GridIsSuffixOfAccumulatedTable(ledger: seq<Position>)
    ensures var r := ClosedPanel(Some(ledger));
            r.Render? ==> HoldsLastRows(r.content.grid, ClosedTrades(ledger))
  {
    var r := ClosedPanel(Some(ledger));
    if r.Render? {
      TailOfAccumulated(ClosedTrades(ledger));
    }
  }

  /** The last GridRows rows of the accumulated table of `trades`. */
  lemma TailOfAccumulated(trades: seq<Position>)
    ensures HoldsLastRows(Tail(WithPnlCum(trades), GridRows), trades)
  {
    var full := WithPnlCum(trades);
    var grid := Tail(full, GridRows);
    var skipped := |full| - |grid|;
    forall i | 0 <= i < |grid|
      ensures grid[i].trade == trades[skipped + i]
      ensures grid[i].pnlCum == TotalPnl(trades[..skipped + i + 1])
    {
      assert grid[i] == full[skipped + i];
    }
  }

  /** The cumulative PnL chart plots every closed trade, in exit-time order,
      against its prefix sum. */
  lemma ChartCoversAllClosedTrades(ledger: seq<Position>)
    ensures var r := ClosedPanel(Some(ledger));
            var closed := ClosedTrades(ledger);
            r.Render? ==>
              && |r.content.chart.traces| == 1
              && |r.content.chart.traces[0].x| == |closed|
              && |r.content.chart.traces[0].y| == |closed|
              && r.content.chart.hlines == []
              && (forall i | 0 <= i < |closed| ::
                    r.content.chart.traces[0].x[i] == closed[i].exitTime
                    && r.content.chart.traces[0].y[i] == Some(TotalPnl(closed[..i + 1]) as real))
  {
    var r := ClosedPanel(Some(ledger));
    if r.Render? {
      var closed := ClosedTrades(ledger);
      assert r.content.chart == PnlChart(WithPnlCum(closed));
    }
  }

  /** Every grid row exited no earlier than any closed trade left off the
      grid: truncation drops the oldest trades first. */
  lemma {:induction false} GridShowsMostRecent(ledger: seq<Position>)
    ensures var r := ClosedPanel(Some(ledger));
            var closed := ClosedTrades(ledger);
            r.Render? ==>
              forall i, j | 0 <= i < |closed| - |r.content.grid| && 0 <= j < |r.content.grid| ::
                closed[i].exitTime <= r.content.grid[j].trade.exitTime
  {
    GridIsSuffixOfAccumulatedTable(ledger);
  }

  /** With 250 closed trades the grid shows the 200 latest of them while
      the chart and the cumulative sum cover all 250. */
  lemma {:induction false} GridOf250ClosedTrades(ledger: seq<Position>)
    requires |Keep(ledger, IsClosed)| == 250
    ensures var r := ClosedPanel(Some(ledger));
            var full := WithPnlCum(ClosedTrades(ledger));
            && r.Render?
            && r.content.grid == full[50..]
            && |r.content.chart.traces[0].x| == 250
            && full[249].pnlCum == TotalPnl(Keep(ledger, IsClosed))
  {
    var closed := ClosedTrades(ledger);
    assert |closed| == |multiset(closed)| == |multiset(Keep(ledger, IsClosed))| == 250;
    FinalPnlCumIsClosedTotal(ledger);
  }

  /** pnl 10, -5 and 20, in exit-time order, accumulate to 10, 5 and 25. */
  lemma CumulativePnlExample(a: Position, b: Position, c: Position)
    requires a.pnl == 10 && b.pnl == -5 && c.pnl == 20
    ensures var full := WithPnlCum([a, b, c]);
            full == [ClosedRow(a, 10), ClosedRow(b, 5), ClosedRow(c, 25)]
  {
    var full := WithPnlCum([a, b, c]);
    assert [a, b, c][..1] == [a] && [a, b, c][..2] == [a, b] && [a, b, c][..3] == [a, b, c];
    assert [a, b][1..] == [b] && [a, b, c][1..] == [b, c] && [b, c][1..] == [c];
    assert full[0].pnlCum == TotalPnl([a]) == 10;
    assert full[1].pnlCum == TotalPnl([a, b]) == 5;
    assert [c][1..] == [];
    assert TotalPnl([b, c]) == 15;
    assert full[2].pnlCum == TotalPnl([a, b, c]) == 25;
  }
}
