/** The declarative values the dashboard hands to its rendering runtime:
    chart specifications, static notices, and the outcome of each panel. */
module Charts {
  import opened Wrappers

  /** One line trace: its legend name, x positions (timestamps) and y values;
      a None value is a blank cell, drawn as a gap. */
  datatype Series = Series(name: string, x: seq<int>, y: seq<Option<real>>)

  /** A figure: its traces in the order they were added, and the y values of
      its horizontal reference lines. */
  datatype Chart = Chart(traces: seq<Series>, hlines: seq<real>)

  /** A candlestick trace: one OHLC bar per timestamp. */
  datatype Candlestick = Candlestick(
    name: string, x: seq<int>, open: seq<real>, high: seq<real>, low: seq<real>, close: seq<real>)

  /** The severity a static message is shown with. */
  datatype Level = Warning | Info | Success

  datatype Notice = Notice(level: Level, text: string)

  /** How a panel ends up. */
  datatype PanelOutcome = FileAbsent | EmptyResult | Rendered

  /** What one panel shows: a "file not present" notice, a "no data yet"
      notice, or its content. */
  datatype Panel<+V> = NotPresent(notice: Notice) | NoData(notice: Notice) | Render(content: V)
  {
    function Outcome(): PanelOutcome
    {
      match this
      case NotPresent(_) => FileAbsent
      case NoData(_) => EmptyResult
      case Render(_) => Rendered
    }
  }

  /** A chart inside a panel, or the placeholder shown instead of it. */
  datatype SubPanel = Placeholder(notice: Notice) | Plot(chart: Chart)
}
