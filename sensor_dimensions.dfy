/**
 * The sensor-dimension analytics page: the metric it starts from, the metric selector that
 * rewrites the query in place, and the links to a dimension's detail view and back. Grouping,
 * panels and the detail switch are those of the dimension-count page.
 */
module SensorDimensions {
  import opened Wrappers
  import opened Strings
  import opened FormUrlEncoded
  import opened SensorDimensionDetailView

  const DefaultMetric := "installation_count"

  /** `searchParams.get("metric") || "installation_count"`; the text is taken as it is. */
  function InitialMetric(searchParams: Query): (r: string)
    ensures r != ""
  {
    var m := Get(searchParams, "metric");
    if m.Some? && m.value != "" then m.value else DefaultMetric
  }

  /** The page's `selectedMetric` slot. */
  class SensorDimensionsPage {
    var selectedMetric: string

    constructor(searchParams: Query)
      ensures selectedMetric == InitialMetric(searchParams)
    {
      selectedMetric := InitialMetric(searchParams);
    }

    /** `handleMetricChange`: adopt the metric and replace the query with a copy that has it. */
    method HandleMetricChange(value: string, searchParams: Query) returns (nav: Navigation)
      modifies this
      ensures selectedMetric == value
      ensures nav == Navigation("?" + Serialize(WithMetric(searchParams, value)), true)
    {
      selectedMetric := value;
      var newSearchParams := Set(searchParams, "metric", value);
      nav := Navigation("?" + Serialize(newSearchParams), true);
    }

    /** `handleDetailMetricChange`: the detail view's selector reports back. */
    method HandleDetailMetricChange(metric: string)
      modifies this
      ensures selectedMetric == metric
    {
      selectedMetric := metric;
    }

    /** `handleShowDetails` */
    function DetailLink(dimension: string): Navigation
      reads this
    {
      Navigation(DetailPath(dimension, selectedMetric), false)
    }

    /** `handleBackToOverview` */
    function BackLink(): Navigation
      reads this
    {
      Navigation(OverviewPath(selectedMetric), false)
    }
  }

  /** The path of the page; the detail view's path adds the dimension after a `/`. */
  const PagePath := "/analytics/sensor-dimensions"

  function DetailPath(dimension: string, metric: string): string
  {
    PagePath + "/" + dimension + "?" + "metric=" + metric
  }

  function OverviewPath(metric: string): string
  {
    PagePath + "?" + "metric=" + metric
  }

  /** The page's path has no `?` of its own. */
  lemma PagePathPlain()
    ensures '?' !in PagePath + "/"
  {
    forall i | 0 <= i < |PagePath + "/"| ensures (PagePath + "/")[i] != '?' {
    }
  }

  /** The query part of a link: what follows its first `?`. */
  function QueryOf(url: string): string
  {
    BreakAt(url, '?').1
  }

  // ---- properties ----

  /** The page starts from the query's metric, or from installations when there is none. */
  lemma InitialMetricChoice(searchParams: Query)
    ensures Get(searchParams, "metric").Some? && Get(searchParams, "metric").value != "" ==>
      InitialMetric(searchParams) == Get(searchParams, "metric").value
    ensures Get(searchParams, "metric").None? || Get(searchParams, "metric").value == "" ==>
      InitialMetric(searchParams) == "installation_count"
  {
  }

  /** A page opened on the query a metric change wrote starts from that metric. */
  lemma MetricChangeRestores(searchParams: Query, value: string)
    requires value != ""
    ensures InitialMetric(WithMetric(searchParams, value)) == value
  {
    SetGet(searchParams, "metric", value);
  }

  /**
   * The query of the detail link and of the back link is `metric=` and the metric; for a metric
   * the encoding leaves alone, it reads back as the one parameter `metric` with that value.
   */
  lemma LinksCarryMetric(dimension: string, metric: string)
    requires Plain(metric) && '?' !in dimension
    ensures Parse(QueryOf(DetailPath(dimension, metric))) == [("metric", metric)]
    ensures Parse(QueryOf(OverviewPath(metric))) == [("metric", metric)]
  {
    SerializeMetric(metric);
    ParseSerialize([("metric", metric)]);
    var query := "metric=" + metric;
    var detail := PagePath + "/" + dimension;
    PagePathPlain();
    assert '?' !in PagePath by {
      assert forall i :: 0 <= i < |PagePath| ==> PagePath[i] == (PagePath + "/")[i];
    }
    assert '?' !in detail by {
      assert forall i :: 0 <= i < |PagePath + "/"| ==> detail[i] == (PagePath + "/")[i];
      assert forall i :: |PagePath + "/"| <= i < |detail| ==> detail[i] == dimension[i - |PagePath + "/"|];
    }
    BreakAtFirst(detail, query, '?');
    BreakAtFirst(PagePath, query, '?');
    assert DetailPath(dimension, metric) == detail + "?" + query;
    assert OverviewPath(metric) == PagePath + "?" + query;
  }

  lemma SerializeMetric(metric: string)
    requires Plain(metric)
    ensures Serialize([("metric", metric)]) == "metric=" + metric
  {
    EncodePlain(metric);
    assert Plain("metric") by {
      forall i | 0 <= i < 6 ensures "metric"[i] !in "%&=+? " {
      }
    }
    EncodePlain("metric");
    var t := PairText(("metric", metric));
    assert t == "metric" + "=" + metric;
    assert PairTexts([("metric", metric)]) == [t];
    assert Join([t], "&") == t;
    assert "metric" + "=" == "metric=";
  }
}
