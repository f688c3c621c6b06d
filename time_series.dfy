/**
 * The time-series analytics page and the opt-ins chart: picking the series the query asked
 * for out of the response and turning its points into chart points, the metric menu, and what
 * the page shows for an unknown metric or an empty chart.
 */
module TimeSeries {
  import opened Wrappers
  import opened Lists

  datatype Point = Point(ts: string, value: real)

  datatype Series = Series(name: string, points: seq<Point>)

  /** A time-series response: the metric of its query and the series it holds. */
  datatype TimeseriesResponse = TimeseriesResponse(queryMetric: string, series: seq<Series>)

  datatype ChartPoint = ChartPoint(date: string, count: real)

  /** The position of the first series with that name (`find`). */
  function FindSeries(series: seq<Series>, name: string): (r: Option<nat>)
    ensures r.Some? ==> r.value < |series| && series[r.value].name == name
    ensures r.Some? ==> forall j :: 0 <= j < r.value ==> series[j].name != name
    ensures r.None? <==> forall j :: 0 <= j < |series| ==> series[j].name != name
  {
    if series == [] then None
    else if series[0].name == name then Some(0)
    else
      match FindSeries(series[1..], name)
      case None => None
      case Some(k) => Some(k + 1)
  }

  function ToChartPoint(p: Point): ChartPoint
  {
    ChartPoint(p.ts, p.value)
  }

  function ToChartPointFn(): Point -> ChartPoint
  {
    (p: Point) => ToChartPoint(p)
  }

  /** `transformTimeseriesForLineChart` */
  function Transform(response: TimeseriesResponse): seq<ChartPoint>
  {
    match FindSeries(response.series, response.queryMetric)
    case None => []
    case Some(k) => Map(response.series[k].points, ToChartPointFn())
  }

  datatype MetricOption = MetricOption(value: string, optionLabel: string, description: Option<string>)

  /** `METRIC_OPTIONS` */
  const MetricOptions: seq<MetricOption> := [
    MetricOption("optin_date", "Opt-in Date", Some("Number of installations that have opted in to analytics.")),
    MetricOption("install_date", "Install Date", Some("Number of new installations.")),
    MetricOption("sensors", "Sensors", Some("Number of sensors created."))
  ]

  /** The first option with that value. */
  function FindOption(options: seq<MetricOption>, value: string): (r: Option<MetricOption>)
    ensures r.Some? ==> r.value in options && r.value.value == value
    ensures r.None? <==> forall j :: 0 <= j < |options| ==> options[j].value != value
  {
    if options == [] then None
    else if options[0].value == value then Some(options[0])
    else FindOption(options[1..], value)
  }

  datatype ChartType = Line | BarChart

  /** The page's selector slots (the date range is not modelled). */
  datatype Selection = Selection(grouping: string, metric: string, chartType: ChartType)

  const InitialSelection := Selection("day", "install_date", Line)

  datatype Screen =
    | InvalidMetric
    | Placeholder(title: string, description: string)
    | Chart(title: string, description: string, points: seq<ChartPoint>, chartType: ChartType, grouping: string)

  /** What the page shows for a selection and the resolved response (absent before it resolves). */
  function Render(sel: Selection, data: Option<TimeseriesResponse>): Screen
  {
    var chartData := if data.None? then [] else Transform(data.value);
    match FindOption(MetricOptions, sel.metric)
    case None => InvalidMetric
    case Some(option) =>
      var description := option.description.GetOr("");
      if |chartData| > 0 then Chart(option.optionLabel, description, chartData, sel.chartType, sel.grouping)
      else Placeholder(option.optionLabel, description)
  }

  // ---- properties ----

  /**
   * The series drawn is the first whose name is the query's metric, and there is nothing to
   * draw when no series has that name.
   */
  lemma TransformPicksFirst(response: TimeseriesResponse)
    ensures (forall j :: 0 <= j < |response.series| ==> response.series[j].name != response.queryMetric) ==>
      Transform(response) == []
    ensures forall k :: (0 <= k < |response.series| && response.series[k].name == response.queryMetric
      && (forall j :: 0 <= j < k ==> response.series[j].name != response.queryMetric)) ==>
      Transform(response) == Map(response.series[k].points, ToChartPointFn())
  {
    var r := FindSeries(response.series, response.queryMetric);
    forall k | 0 <= k < |response.series| && response.series[k].name == response.queryMetric
      && (forall j :: 0 <= j < k ==> response.series[j].name != response.queryMetric)
      ensures r == Some(k)
    {
    }
  }

  /** One chart point per point of the series, in order, with the timestamp as date and the value as count. */
  lemma TransformPoints(s: seq<Point>)
    ensures |Map(s, ToChartPointFn())| == |s|
    ensures forall i :: 0 <= i < |s| ==> Map(s, ToChartPointFn())[i] == ChartPoint(s[i].ts, s[i].value)
  {
  }

  /** The page starts on a daily line chart of installs, a metric the menu knows. */
  lemma InitialSelectionValid()
    ensures InitialSelection.grouping == "day" && InitialSelection.metric == "install_date"
    ensures InitialSelection.chartType == Line
    ensures FindOption(MetricOptions, InitialSelection.metric) == Some(MetricOptions[1])
  {
  }

  /**
   * "Invalid metric selected." appears exactly for a metric the menu does not list; for a
   * listed one the chart shows when there are points and the loading placeholder otherwise.
   */
  lemma RenderCases(sel: Selection, data: Option<TimeseriesResponse>)
    ensures Render(sel, data).InvalidMetric? <==> forall j :: 0 <= j < |MetricOptions| ==> MetricOptions[j].value != sel.metric
    ensures Render(sel, data).Placeholder? <==>
      FindOption(MetricOptions, sel.metric).Some? && (data.None? || Transform(data.value) == [])
    ensures Render(sel, data).Chart? ==>
      && data.Some? && Render(sel, data).points == Transform(data.value)
      && Render(sel, data).title == FindOption(MetricOptions, sel.metric).value.optionLabel
  {
  }
}
