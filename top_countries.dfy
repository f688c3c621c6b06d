/**
 * The top-countries card: a copy of the country statistics sorted by share, largest first,
 * cut to the first ten.
 */
module TopCountries {
  import opened Sorting

  /** One country's row; the fields the card does not read are left out. */
  datatype CountryStats = CountryStats(countryCode: string, percentage: real)

  const TopCount := 10

  /** The comparator `b.percentage - a.percentage`, as "may come before". */
  function PercentageDesc(): (CountryStats, CountryStats) -> bool
  {
    (a: CountryStats, b: CountryStats) => b.percentage <= a.percentage
  }

  /** `[...data].sort(...).slice(0, 10)` */
  function Top10(data: seq<CountryStats>): seq<CountryStats>
  {
    Take(SortBy(data, PercentageDesc()), TopCount)
  }

  // ---- properties ----

  lemma PercentageDescTotalPreorder()
    ensures TotalPreorder(PercentageDesc())
  {
  }

  /** The copy is sorted by share, largest first. */
  lemma SortedByShare(data: seq<CountryStats>)
    ensures SortedBy(SortBy(data, PercentageDesc()), PercentageDesc())
  {
    PercentageDescTotalPreorder();
    SortBySorted(data, PercentageDesc());
  }

  /**
   * The card lists `min(10, n)` countries, non-increasing by share, all taken from the data,
   * and no listed country has a smaller share than one left out.
   */
  lemma Top10Shape(data: seq<CountryStats>)
    ensures |Top10(data)| == if |data| < 10 then |data| else 10
    ensures forall i, j :: 0 <= i < j < |Top10(data)| ==> Top10(data)[j].percentage <= Top10(data)[i].percentage
    ensures multiset(Top10(data)) <= multiset(data)
    ensures forall x, y :: x in Top10(data) && y in multiset(data) - multiset(Top10(data)) ==> y.percentage <= x.percentage
  {
    Top10Ordered(data);
    Top10Taken(data);
    Top10Dominates(data);
  }

  lemma Top10Ordered(data: seq<CountryStats>)
    ensures forall i, j :: 0 <= i < j < |Top10(data)| ==> Top10(data)[j].percentage <= Top10(data)[i].percentage
  {
    SortedByShare(data);
    TakeSorted(SortBy(data, PercentageDesc()), TopCount, PercentageDesc());
    var top := Top10(data);
    forall i, j | 0 <= i < j < |top| ensures top[j].percentage <= top[i].percentage {
      assert PercentageDesc()(top[i], top[j]);
    }
  }

  lemma Top10Taken(data: seq<CountryStats>)
    ensures multiset(Top10(data)) <= multiset(data)
  {
    SortedByShare(data);
    TakeSorted(SortBy(data, PercentageDesc()), TopCount, PercentageDesc());
  }

  lemma Top10Dominates(data: seq<CountryStats>)
    ensures forall x, y :: x in Top10(data) && y in multiset(data) - multiset(Top10(data)) ==> y.percentage <= x.percentage
  {
    SortedByShare(data);
    TakeSorted(SortBy(data, PercentageDesc()), TopCount, PercentageDesc());
    var top := Top10(data);
    forall x, y | x in top && y in multiset(data) - multiset(top) ensures y.percentage <= x.percentage {
      assert PercentageDesc()(x, y);
    }
  }
}
