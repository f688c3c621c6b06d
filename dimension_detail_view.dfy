/**
 * The bar-chart view of one dimension on the dimension-count page: its records sorted by the
 * selected metric, the heading with the metric's name, and one bar per record.
 */
module DimensionDetailView {
  import opened Sorting
  import opened Lists
  import opened DimensionCounts

  /** One bar: the record's key and its metric value (missing as 0). */
  datatype Bar = Bar(key: string, value: real)

  function BarOf(metric: string, item: DimensionCount): Bar
  {
    Bar(item.keyName, MetricValue(item, metric))
  }

  function BarFn(metric: string): DimensionCount -> Bar
  {
    (item: DimensionCount) => BarOf(metric, item)
  }

  /** `metricLabel` */
  function MetricLabel(metric: string): (r: string)
    ensures r == "Installation Count" <==> metric == "installation_count"
    ensures r == "Installation Count" || r == "Total Count"
  {
    if metric == "installation_count" then "Installation Count" else "Total Count"
  }

  /** The view's content: a heading and the bars, an empty bar list showing "No data". */
  datatype DetailContent = DetailContent(heading: string, bars: seq<Bar>)

  function DetailView(dimension: string, data: seq<DimensionCount>, metric: string): DetailContent
  {
    var sortedData := SortedData(data, metric);
    DetailContent(FormatTitle(dimension) + " - " + MetricLabel(metric), Map(sortedData, BarFn(metric)))
  }

  /**
   * One bar per record of the dimension, the bars in the order of the sorted copy, so their
   * values never increase; the bars hold the same keys and values as the records.
   */
  lemma DetailViewBars(dimension: string, data: seq<DimensionCount>, metric: string)
    ensures var v := DetailView(dimension, data, metric);
      && |v.bars| == |data|
      && (forall i :: 0 <= i < |v.bars| ==> v.bars[i] == Bar(SortedData(data, metric)[i].keyName, MetricValue(SortedData(data, metric)[i], metric)))
      && (forall i, j :: 0 <= i < j < |v.bars| ==> v.bars[j].value <= v.bars[i].value)
      && multiset(v.bars) == multiset(Map(data, BarFn(metric)))
  {
    SortedDataShape(data, metric);
    MapPermutation(SortedData(data, metric), data, BarFn(metric));
  }
}
