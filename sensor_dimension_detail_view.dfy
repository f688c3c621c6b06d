/**
 * The bar-chart view of one sensor dimension on the analytics pages: records sorted by the
 * metric and then by key, the chart height, and the metric selector that rewrites the query
 * and tells the parent page.
 */
module SensorDimensionDetailView {
  import opened Wrappers
  import opened Strings
  import opened Sorting
  import opened Lists
  import opened FormUrlEncoded
  import opened DimensionCounts
  import opened DimensionDetailView

  /** A router navigation: the target and whether it replaces the current history entry. */
  datatype Navigation = Navigation(target: string, replace: bool)

  const BarHeight := 36
  const ChartPadding := 40

  /** The heading: `by_` is removed only at the very start, then the text is prettified. */
  function FormatDimensionTitle(dimension: string): string
  {
    Prettify(if StartsWith(dimension, "by_") then dimension[3..] else dimension)
  }

  /** Larger metric values first; equal values by key in `localeCompare` order. */
  function MetricThenKey(metric: string): (DimensionCount, DimensionCount) -> bool
  {
    (a: DimensionCount, b: DimensionCount) =>
      if MetricValue(a, metric) != MetricValue(b, metric) then MetricValue(b, metric) < MetricValue(a, metric)
      else StrLe(a.keyName, b.keyName)
  }

  /** `sortedData`: a sorted copy of `data`. */
  function SortedByMetricThenKey(data: seq<DimensionCount>, metric: string): seq<DimensionCount>
  {
    SortBy(data, MetricThenKey(metric))
  }

  /** `chartData`: one bar per sorted record. */
  function ChartBars(data: seq<DimensionCount>, metric: string): seq<Bar>
  {
    Map(SortedByMetricThenKey(data, metric), BarFn(metric))
  }

  /** `chartHeight`: a fixed height per bar plus padding. */
  function ChartHeight(bars: seq<Bar>): int
  {
    |bars| * BarHeight + ChartPadding
  }

  /** A copy of the query with `metric` set. */
  function WithMetric(searchParams: Query, metric: string): Query
  {
    Set(searchParams, "metric", metric)
  }

  /** Where a metric change from this view navigates. */
  function MetricTarget(dimension: string, searchParams: Query, metric: string): Navigation
  {
    Navigation("/analytics/sensor-dimensions/" + dimension + "?" + Serialize(WithMetric(searchParams, metric)), true)
  }

  /** The view's metric slot, resynced from the parent's `metric` and changed by the selector. */
  class MetricSelection {
    var selectedMetric: string

    constructor(metric: string)
      ensures selectedMetric == metric
    {
      selectedMetric := metric;
    }

    /** The effect that runs when the `metric` prop changes. */
    method OnMetricProp(metric: string)
      modifies this
      ensures selectedMetric == metric
    {
      selectedMetric := metric;
    }

    /**
     * `handleMetricChange`: adopt the metric, navigate to this view with `metric` set on a
     * copy of the query, and hand the metric to the parent when it listens.
     */
    method HandleMetricChange(newMetric: string, dimension: string, searchParams: Query, parentListens: bool)
      returns (nav: Navigation, notified: Option<string>)
      modifies this
      ensures selectedMetric == newMetric
      ensures nav == MetricTarget(dimension, searchParams, newMetric)
      ensures notified == if parentListens then Some(newMetric) else None
    {
      selectedMetric := newMetric;
      var newSearchParams := Set(searchParams, "metric", newMetric);
      nav := Navigation("/analytics/sensor-dimensions/" + dimension + "?" + Serialize(newSearchParams), true);
      notified := if parentListens then Some(newMetric) else None;
    }
  }

  // ---- properties ----

  lemma MetricThenKeyTotalPreorder(metric: string)
    ensures TotalPreorder(MetricThenKey(metric))
  {
    var le := MetricThenKey(metric);
    forall a, b ensures le(a, b) || le(b, a) {
      StrLeTotal(a.keyName, b.keyName);
    }
    forall a, b, c | le(a, b) && le(b, c) ensures le(a, c) {
      if MetricValue(a, metric) == MetricValue(b, metric) == MetricValue(c, metric) {
        StrLeTrans(a.keyName, b.keyName, c.keyName);
      }
    }
  }

  /**
   * The sorted copy holds the same records; values never increase, and records with equal
   * values are in key order.
   */
  lemma SortedShape(data: seq<DimensionCount>, metric: string)
    ensures multiset(SortedByMetricThenKey(data, metric)) == multiset(data)
    ensures var s := SortedByMetricThenKey(data, metric);
      forall i, j :: 0 <= i < j < |s| ==>
        && MetricValue(s[j], metric) <= MetricValue(s[i], metric)
        && (MetricValue(s[j], metric) == MetricValue(s[i], metric) ==> StrLe(s[i].keyName, s[j].keyName))
  {
    MetricThenKeyTotalPreorder(metric);
    SortBySorted(data, MetricThenKey(metric));
  }

  /** One bar per record, in the sorted order, and the chart is 36 pixels per record plus 40. */
  lemma ChartShape(data: seq<DimensionCount>, metric: string)
    ensures |ChartBars(data, metric)| == |data|
    ensures forall i :: 0 <= i < |data| ==>
      ChartBars(data, metric)[i] == Bar(SortedByMetricThenKey(data, metric)[i].keyName, MetricValue(SortedByMetricThenKey(data, metric)[i], metric))
    ensures ChartHeight(ChartBars(data, metric)) == 36 * |data| + 40
  {
  }

  /** The copy has `metric` once, with the new value, and every other parameter as it was. */
  lemma WithMetricQuery(searchParams: Query, metric: string, other: string)
    requires other != "metric"
    ensures Get(WithMetric(searchParams, metric), "metric") == Some(metric)
    ensures Get(WithMetric(searchParams, metric), other) == Get(searchParams, other)
    ensures Without(WithMetric(searchParams, metric), "metric") == Without(searchParams, "metric")
  {
    SetGet(searchParams, "metric", metric);
    SetKeepsOthers(searchParams, "metric", metric, other);
  }

  /**
   * The two title formatters agree when `by_` is a prefix or absent. `x_by_y` shows they differ
   * otherwise: the panel title drops the inner `by_`, this heading keeps it.
   */
  lemma TitlesAgree(dimension: string)
    requires StartsWith(dimension, "by_") || forall j: nat :: !OccursAt(dimension, "by_", j)
    ensures FormatDimensionTitle(dimension) == FormatTitle(dimension)
  {
    if StartsWith(dimension, "by_") {
      ReplaceFirstAtStart(dimension, "by_");
    } else {
      assert ReplaceFirst(dimension, "by_", "") == dimension;
    }
  }

  lemma TitlesDiffer()
    ensures FormatDimensionTitle("x_by_y") == "X By Y"
    ensures FormatTitle("x_by_y") == "X Y"
  {
    InnerByRemoved();
    PrettifyXY();
    PrettifyXByY();
  }

  lemma InnerByRemoved()
    ensures ReplaceFirst("x_by_y", "by_", "") == "x_y"
  {
    var d := "x_by_y";
    assert OccursAt(d, "by_", 2);
    forall j: nat | j < 2 ensures !OccursAt(d, "by_", j) {
      assert d[j] != 'b';
    }
    ReplaceFirstAt(d, "by_", "", 2);
    assert d[..2] + d[5..] == "x_y";
  }

  lemma PrettifyXY()
    ensures Prettify("x_y") == "X Y"
  {
    var p := ReplaceAllChar("x_y", '_', ' ');
    assert p == "x y";
    assert WordStart(p, 0) && !WordStart(p, 1) && WordStart(p, 2);
  }

  lemma PrettifyXByY()
    ensures FormatDimensionTitle("x_by_y") == "X By Y"
  {
    var d := "x_by_y";
    assert d[..3][0] == 'x';
    var q := ReplaceAllChar(d, '_', ' ');
    assert q == "x by y";
    assert WordStart(q, 0) && !WordStart(q, 1) && WordStart(q, 2) && !WordStart(q, 3) && !WordStart(q, 4) && WordStart(q, 5);
  }
}
