/**
 * The dimension-count statistics page: records grouped by dimension, one pie panel per
 * dimension in name order, each listing its keys by the selected metric, and the switch to
 * the detail view. The same grouping, metric sort, pie data and title formatting serve the
 * sensor-dimension analytics page.
 */
module DimensionCounts {
  import opened Wrappers
  import opened Strings
  import opened Sorting
  import opened Lists
  import opened Grouping

  /** One key of one dimension with its counts; a count the endpoint leaves out is `None`. */
  datatype DimensionCount = DimensionCount(
    dimension: string,
    keyName: string,
    count: Option<int>,
    installationCount: Option<int>,
    percentage: Option<real>)

  /**
   * `item[metric] ?? 0`. The metric is the raw text the page holds; a name that is not one of
   * the three count fields reads as missing.
   */
  function MetricValue(item: DimensionCount, metric: string): real
  {
    if metric == "installation_count" then item.installationCount.GetOr(0) as real
    else if metric == "count" then item.count.GetOr(0) as real
    else if metric == "percentage" then item.percentage.GetOr(0.0)
    else 0.0
  }

  function DimensionOf(item: DimensionCount): string
  {
    item.dimension
  }

  function DimensionFn(): DimensionCount -> string
  {
    (item: DimensionCount) => DimensionOf(item)
  }

  /** `groupByDimension`: the reduce that pushes each record into its dimension's array. */
  method GroupByDimension(data: seq<DimensionCount>) returns (grouped: map<string, seq<DimensionCount>>)
    ensures grouped.Keys == KeysOf(data, DimensionFn())
    ensures forall k :: k in grouped ==> grouped[k] == WithKey(data, DimensionFn(), k)
  {
    grouped := GroupBy(data, DimensionFn());
  }

  /** `Object.keys(groupedData).sort()` */
  function Dimensions(data: seq<DimensionCount>): seq<string>
  {
    SortBy(KeyOrder(data, DimensionFn()), StrLe)
  }

  /** The comparator `(a, b) => (b[metric] ?? 0) - (a[metric] ?? 0)`: larger values first. */
  function MetricDesc(metric: string): (DimensionCount, DimensionCount) -> bool
  {
    (a: DimensionCount, b: DimensionCount) => MetricValue(b, metric) <= MetricValue(a, metric)
  }

  /** `[...group].sort(byMetricDesc)`: a sorted copy. */
  function SortedData(group: seq<DimensionCount>, metric: string): seq<DimensionCount>
  {
    SortBy(group, MetricDesc(metric))
  }

  /** One pie slice. */
  datatype Slice = Slice(id: string, value: real, sliceLabel: string)

  /** The slice for one item, kept only when its value is positive. */
  function SliceOf(dimension: string, metric: string, item: DimensionCount): Option<Slice>
  {
    var value := MetricValue(item, metric);
    if value > 0.0 then Some(Slice(dimension + ":" + item.keyName, value, item.keyName)) else None
  }

  function SliceFn(dimension: string, metric: string): DimensionCount -> Option<Slice>
  {
    (item: DimensionCount) => SliceOf(dimension, metric, item)
  }

  /** `sortedData.map(toSlice).filter(x => x.value > 0)` */
  function ChartData(dimension: string, sorted: seq<DimensionCount>, metric: string): seq<Slice>
  {
    Choose(sorted, SliceFn(dimension, metric))
  }

  // ---- titles ----

  /** Underscores to spaces, then an upper-case first letter for each word. */
  function Prettify(s: string): string
  {
    CapitalizeWords(ReplaceAllChar(s, '_', ' '))
  }

  /** The panel title: the first `by_` anywhere is removed before prettifying. */
  function FormatTitle(dimension: string): string
  {
    Prettify(ReplaceFirst(dimension, "by_", ""))
  }

  // ---- the page ----

  /** What may be thrown into the query's error. */
  datatype Thrown = ErrorObject(message: string) | StringThrown(text: string) | OtherThrown

  /** `getErrorMessage` */
  function GetErrorMessage(err: Thrown): (r: string)
    ensures err.ErrorObject? ==> r == err.message
    ensures err.StringThrown? ==> r == err.text
    ensures err.OtherThrown? ==> r == "Unknown error"
  {
    match err
    case ErrorObject(m) => m
    case StringThrown(s) => s
    case OtherThrown => "Unknown error"
  }

  datatype Panel = Panel(dimension: string, title: string, chart: seq<Slice>)

  datatype Screen =
    | Loading
    | Failed(text: string)
    | Detail(dimension: string, rows: seq<DimensionCount>, metric: string)
    | Overview(panels: seq<Panel>)

  function PanelOf(data: seq<DimensionCount>, metric: string, dimension: string): Panel
  {
    var group := WithKey(data, DimensionFn(), dimension);
    Panel(dimension, FormatTitle(dimension), ChartData(dimension, SortedData(group, metric), metric))
  }

  function PanelFn(data: seq<DimensionCount>, metric: string): string -> Panel
  {
    (dimension: string) => PanelOf(data, metric, dimension)
  }

  /**
   * What the page shows: a spinner while loading, the error text, the detail view when the
   * route names a dimension that has records, and otherwise one panel per dimension.
   */
  function Render(isLoading: bool, error: Option<Thrown>, urlDimension: Option<string>,
                  data: Option<seq<DimensionCount>>, metric: string): Screen
  {
    var counts := data.GetOr([]);
    if isLoading then Loading
    else if error.Some? then Failed("Error loading dimension counts: " + GetErrorMessage(error.value))
    else if urlDimension.Some? && urlDimension.value != "" && urlDimension.value in KeysOf(counts, DimensionFn()) then
      Detail(urlDimension.value, WithKey(counts, DimensionFn(), urlDimension.value), metric)
    else Overview(Map(Dimensions(counts), PanelFn(counts, metric)))
  }

  // ---- properties ----

  /** The dimensions are listed once each, in ascending order, and they are exactly the dimensions present. */
  lemma DimensionsSortedKeys(data: seq<DimensionCount>)
    ensures SortedBy(Dimensions(data), StrLe)
    ensures DistinctKeys(Dimensions(data), SelfKey())
    ensures forall k :: k in Dimensions(data) <==> k in KeysOf(data, DimensionFn())
  {
    var order := KeyOrder(data, DimensionFn());
    StrLeTotalOrder();
    SortBySorted(order, StrLe);
    KeyOrderKeys(data, DimensionFn());
    DistinctKeysPermutation(order, Dimensions(data), SelfKey());
    forall k ensures k in Dimensions(data) <==> k in order {
      assert k in multiset(Dimensions(data)) <==> k in multiset(order);
    }
  }

  lemma MetricDescTotalPreorder(metric: string)
    ensures TotalPreorder(MetricDesc(metric))
  {
  }

  /** The sorted copy holds the same records, with the metric (missing as 0) never increasing. */
  lemma SortedDataShape(group: seq<DimensionCount>, metric: string)
    ensures multiset(SortedData(group, metric)) == multiset(group)
    ensures forall i, j :: 0 <= i < j < |SortedData(group, metric)| ==>
      MetricValue(SortedData(group, metric)[j], metric) <= MetricValue(SortedData(group, metric)[i], metric)
  {
    MetricDescTotalPreorder(metric);
    SortBySorted(group, MetricDesc(metric));
  }

  /**
   * A slice is made for exactly the records with a positive value, with id `dimension:key`,
   * the key as label and the value of the metric; the filter works record by record.
   */
  lemma ChartDataExactly(dimension: string, sorted: seq<DimensionCount>, metric: string)
    ensures forall x :: x in ChartData(dimension, sorted, metric) ==>
      && x.value > 0.0
      && exists i :: (0 <= i < |sorted| && x == Slice(dimension + ":" + sorted[i].keyName, MetricValue(sorted[i], metric), sorted[i].keyName))
    ensures forall i :: 0 <= i < |sorted| && MetricValue(sorted[i], metric) > 0.0 ==>
      Slice(dimension + ":" + sorted[i].keyName, MetricValue(sorted[i], metric), sorted[i].keyName) in ChartData(dimension, sorted, metric)
  {
    ChooseMembers(sorted, SliceFn(dimension, metric));
  }

  lemma ChartDataOrder(dimension: string, a: seq<DimensionCount>, b: seq<DimensionCount>, metric: string)
    ensures ChartData(dimension, a + b, metric) == ChartData(dimension, a, metric) + ChartData(dimension, b, metric)
  {
    ChooseConcat(a, b, SliceFn(dimension, metric));
  }

  /**
   * The detail view is shown exactly when the page has data, no error, and the route names a
   * dimension some record has; it then gets that dimension's records in order.
   */
  lemma RenderDetail(isLoading: bool, error: Option<Thrown>, urlDimension: Option<string>,
                     data: Option<seq<DimensionCount>>, metric: string)
    ensures var s := Render(isLoading, error, urlDimension, data, metric);
      && (s.Detail? <==>
            && !isLoading && error.None? && urlDimension.Some? && urlDimension.value != ""
            && exists i :: 0 <= i < |data.GetOr([])| && data.GetOr([])[i].dimension == urlDimension.value)
      && (s.Detail? ==>
            && s.dimension == urlDimension.value && s.metric == metric
            && forall x :: x in s.rows <==> x in data.GetOr([]) && x.dimension == urlDimension.value)
  {
    var counts := data.GetOr([]);
    if urlDimension.Some? {
      WithKeyMembers(counts, DimensionFn(), urlDimension.value);
    }
    if urlDimension.Some? && exists i :: 0 <= i < |counts| && counts[i].dimension == urlDimension.value {
      var i :| 0 <= i < |counts| && counts[i].dimension == urlDimension.value;
      assert DimensionFn()(counts[i]) in KeysOf(counts, DimensionFn());
    }
  }

  /**
   * The overview has one panel per dimension in ascending order; each panel's chart is its
   * dimension's records, largest first, keeping only positive values.
   */
  lemma OverviewPanels(data: seq<DimensionCount>, metric: string, urlDimension: Option<string>)
    requires urlDimension.None? || urlDimension.value !in KeysOf(data, DimensionFn())
    ensures var s := Render(false, None, urlDimension, Some(data), metric);
      && s.Overview?
      && |s.panels| == |Dimensions(data)|
      && forall i :: 0 <= i < |s.panels| ==>
           && s.panels[i].dimension == Dimensions(data)[i]
           && s.panels[i].title == FormatTitle(Dimensions(data)[i])
           && s.panels[i].chart == ChartData(Dimensions(data)[i], SortedData(WithKey(data, DimensionFn(), Dimensions(data)[i]), metric), metric)
  {
  }

  /** A prettified text has no underscore left. */
  lemma PrettifyNoUnderscore(s: string)
    ensures '_' !in Prettify(s)
  {
    var t := Prettify(s);
    forall i | 0 <= i < |t| ensures t[i] != '_' {
      assert ReplaceAllChar(s, '_', ' ')[i] != '_';
    }
  }

  lemma UpperCharWord(c: char)
    ensures IsWordChar(UpperChar(c)) == IsWordChar(c)
    ensures LowerChar(UpperChar(c)) == LowerChar(c)
    ensures !('a' <= UpperChar(c) <= 'z')
  {
  }

  /** Capitalising changes case only, and leaves no word starting with a lower-case letter. */
  lemma CapitalizeWordsShape(s: string)
    ensures ToLower(CapitalizeWords(s)) == ToLower(s)
    ensures forall i :: 0 <= i < |s| ==> WordStart(CapitalizeWords(s), i) == WordStart(s, i)
    ensures forall i :: 0 <= i < |s| && WordStart(CapitalizeWords(s), i) ==> !('a' <= CapitalizeWords(s)[i] <= 'z')
  {
    var t := CapitalizeWords(s);
    forall i | 0 <= i < |s| ensures IsWordChar(t[i]) == IsWordChar(s[i]) && LowerChar(t[i]) == LowerChar(s[i]) {
      UpperCharWord(s[i]);
    }
    forall i | 0 <= i < |s| && WordStart(t, i) ensures !('a' <= t[i] <= 'z') {
      UpperCharWord(s[i]);
    }
  }

  /** A text without `_` whose words already start in upper case is its own prettified form. */
  lemma PrettifyFixed(s: string)
    requires '_' !in s
    requires forall i :: 0 <= i < |s| && WordStart(s, i) ==> !('a' <= s[i] <= 'z')
    ensures Prettify(s) == s
  {
    assert ReplaceAllChar(s, '_', ' ') == s;
  }

  /** A text without `_` contains no `by_`. */
  lemma NoUnderscoreNoBy(s: string)
    requires '_' !in s
    ensures IndexOf(s, "by_").None?
  {
    forall j: nat ensures !OccursAt(s, "by_", j) {
      if j + 3 <= |s| {
        assert s[j..j + 3][2] == s[j + 2];
      }
    }
  }

  /**
   * The panel title has no underscores and every word starts in upper case; it differs from
   * the dimension with its first `by_` removed and underscores spaced only in letter case.
   * Formatting a title again leaves it as it is.
   */
  lemma FormatTitleShape(dimension: string)
    ensures '_' !in FormatTitle(dimension)
    ensures forall i :: 0 <= i < |FormatTitle(dimension)| && WordStart(FormatTitle(dimension), i) ==>
      !('a' <= FormatTitle(dimension)[i] <= 'z')
    ensures ToLower(FormatTitle(dimension)) == ToLower(ReplaceAllChar(ReplaceFirst(dimension, "by_", ""), '_', ' '))
    ensures FormatTitle(FormatTitle(dimension)) == FormatTitle(dimension)
  {
    var t := FormatTitle(dimension);
    PrettifyNoUnderscore(ReplaceFirst(dimension, "by_", ""));
    CapitalizeWordsShape(ReplaceAllChar(ReplaceFirst(dimension, "by_", ""), '_', ' '));
    NoUnderscoreNoBy(t);
    assert ReplaceFirst(t, "by_", "") == t;
    PrettifyFixed(t);
  }

  /** The first `by_` is what goes: the text before it and the text after it are kept. */
  lemma FormatTitleStripsFirstBy(dimension: string, i: nat)
    requires OccursAt(dimension, "by_", i)
    requires forall j: nat :: j < i ==> !OccursAt(dimension, "by_", j)
    ensures FormatTitle(dimension) == Prettify(dimension[..i] + dimension[i + 3..])
  {
  }

  lemma FormatTitleKeepsNoBy(dimension: string)
    requires forall j: nat :: !OccursAt(dimension, "by_", j)
    ensures FormatTitle(dimension) == Prettify(dimension)
  {
  }

  /** A pattern at the very start is the first occurrence, so `replace` drops the prefix. */
  lemma ReplaceFirstAtStart(s: string, pat: string)
    requires StartsWith(s, pat)
    ensures ReplaceFirst(s, pat, "") == s[|pat|..]
  {
    assert OccursAt(s, pat, 0);
    assert s[..0] + "" + s[|pat|..] == s[|pat|..];
  }
}
