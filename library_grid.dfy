/**
 * The library grid's column filters and their mirror in the page's query string.
 *
 * Filters are read from the query string when the page opens and whenever the URL changes
 * (the URL-driven step); a filter edit in the grid rewrites the query string (the UI-driven
 * step). Both steps compare canonical forms so that one does not trigger the other forever.
 */
module LibraryGrid {
  import opened Wrappers
  import opened Strings
  import opened Sorting
  import opened Lists
  import opened JsValues
  import opened FormUrlEncoded

  /** One entry of the grid's column filter state: a column id and the filter control's value. */
  datatype ColumnFilter = ColumnFilter(id: string, value: JsValue)

  function FilterId(f: ColumnFilter): string
  {
    f.id
  }

  /** A `Record<string, string>` from query parameter to column id, in `Object.entries` order. */
  type ParamMap = seq<(string, string)>

  /** The query parameters the grid reads and writes, and the columns they filter. */
  const FilterParamMap: ParamMap := [
    ("manufacturer", "manufacturer.fullName"),
    ("colorMode", "colorModes"),
    ("deviceType", "deviceType"),
    ("author", "author"),
    ("measureDevice", "measureDevice"),
    ("calculationStrategy", "calculationStrategy"),
    ("measureMethod", "measureMethod")
  ]

  /**
   * `normalizeFilterVal`: the elements of an array, each stringified, sorted and joined with
   * commas; "" for `null` and `undefined`; `String(v)` for anything else.
   */
  function NormalizeFilterVal(v: JsValue): (r: string)
    ensures IsNullish(v) ==> r == ""
    ensures v.Str? ==> r == v.s
    ensures !v.Arr? && !IsNullish(v) ==> r == ToString(v)
  {
    if v.Arr? then Join(SortBy(Map(v.items, ToString), StrLe), ",")
    else if IsNullish(v) then ""
    else ToString(v)
  }

  /** An array filter value is the comma-join of an ordered rearrangement of its elements' strings. */
  lemma NormalizeArray(items: seq<JsValue>)
    ensures exists parts :: (SortedBy(parts, StrLe) && multiset(parts) == multiset(Map(items, ToString))
      && NormalizeFilterVal(Arr(items)) == Join(parts, ","))
  {
    StrLeTotalOrder();
    SortBySorted(Map(items, ToString), StrLe);
  }

  /** Selecting the same options in another order gives the same normalised value. */
  lemma NormalizePermutation(a: seq<JsValue>, b: seq<JsValue>)
    requires multiset(a) == multiset(b)
    ensures NormalizeFilterVal(Arr(a)) == NormalizeFilterVal(Arr(b))
  {
    StrLeTotalOrder();
    MapPermutation(a, b, ToString);
    var sa := SortBy(Map(a, ToString), StrLe);
    var sb := SortBy(Map(b, ToString), StrLe);
    SortBySorted(Map(a, ToString), StrLe);
    SortBySorted(Map(b, ToString), StrLe);
    SortedUnique(sa, sb, StrLe);
  }

  // ---- query string -> filters ----

  /** The filter one map entry contributes: its column, with the parameter's raw value when that is non-empty. */
  function FilterFrom(q: Query, entry: (string, string)): (r: Option<ColumnFilter>)
    ensures r.Some? <==> Get(q, entry.0).Some? && Get(q, entry.0).value != ""
    ensures r.Some? ==> r.value == ColumnFilter(entry.1, Str(Get(q, entry.0).value))
  {
    match Get(q, entry.0)
    case Some(val) => if val != "" then Some(ColumnFilter(entry.1, Str(val))) else None
    case None => None
  }

  function FilterFromFn(q: Query): ((string, string)) -> Option<ColumnFilter>
  {
    entry => FilterFrom(q, entry)
  }

  /** The filters a query string stands for, one per map entry whose parameter is set, in map order. */
  function FiltersFor(q: Query, m: ParamMap): seq<ColumnFilter>
  {
    Choose(m, FilterFromFn(q))
  }

  /** `buildFilterStateFromSearchParams` */
  method BuildFilterStateFromSearchParams(q: Query, m: ParamMap) returns (result: seq<ColumnFilter>)
    ensures result == FiltersFor(q, m)
  {
    result := [];
    var i := 0;
    while i < |m|
      invariant 0 <= i <= |m|
      invariant result == Choose(m[..i], FilterFromFn(q))
    {
      var (param, colId) := m[i];
      var val := Get(q, param);
      ChoosePrefixStep(m, i, FilterFromFn(q));
      assert FilterFromFn(q)(m[i]) == FilterFrom(q, m[i]);
      if val.Some? && val.value != "" {
        result := result + [ColumnFilter(colId, Str(val.value))];
      } else {
        assert result + [] == result;
      }
      i := i + 1;
    }
    assert m[..i] == m;
  }

  /**
   * A filter comes out of the query string exactly for an entry of the map whose parameter is
   * present and non-empty; it has that entry's column and the raw value. There is at most one
   * per entry.
   */
  lemma FiltersForMembers(q: Query, m: ParamMap)
    ensures |FiltersFor(q, m)| <= |m|
    ensures forall f :: f in FiltersFor(q, m) <==>
      exists i :: 0 <= i < |m| && m[i].1 == f.id && Get(q, m[i].0).Some? && Get(q, m[i].0).value != ""
        && f.value == Str(Get(q, m[i].0).value)
  {
    ChooseMembers(m, FilterFromFn(q));
    forall f | f in FiltersFor(q, m) ensures exists i :: (0 <= i < |m| && m[i].1 == f.id && Get(q, m[i].0).Some?
        && Get(q, m[i].0).value != "" && f.value == Str(Get(q, m[i].0).value)) {
      var i :| 0 <= i < |m| && FilterFromFn(q)(m[i]) == Some(f);
    }
    forall i | 0 <= i < |m| && Get(q, m[i].0).Some? && Get(q, m[i].0).value != ""
      ensures ColumnFilter(m[i].1, Str(Get(q, m[i].0).value)) in FiltersFor(q, m) {
      assert FilterFromFn(q)(m[i]).Some?;
    }
  }

  // ---- filters -> query string ----

  /** `Object.entries(map).find(([, colId]) => colId === id)?.[0]`: the first parameter mapped to the column. */
  function ParamFor(m: ParamMap, id: string): Option<string>
  {
    if m == [] then None
    else if m[0].1 == id then Some(m[0].0)
    else ParamFor(m[1..], id)
  }

  /** There is no parameter exactly when no entry maps to the column; otherwise it is the first such entry's. */
  lemma {:induction false} ParamForFound(m: ParamMap, id: string)
    ensures ParamFor(m, id).None? <==> forall i :: 0 <= i < |m| ==> m[i].1 != id
    ensures ParamFor(m, id).Some? ==>
      exists i :: 0 <= i < |m| && m[i] == (ParamFor(m, id).value, id) && forall j :: 0 <= j < i ==> m[j].1 != id
  {
    if m != [] {
      if m[0].1 == id {
        assert m[0] == (m[0].0, id);
      } else {
        var r := ParamFor(m[1..], id);
        ParamForFound(m[1..], id);
        forall i | 1 <= i < |m| ensures m[i] == m[1..][i - 1] {
        }
        if r.Some? {
          var i :| 0 <= i < |m[1..]| && m[1..][i] == (r.value, id) && forall j :: 0 <= j < i ==> m[1..][j].1 != id;
          assert m[i + 1] == (r.value, id);
          assert forall j :: 0 <= j < i + 1 ==> m[j].1 != id by {
            forall j | 0 <= j < i + 1 ensures m[j].1 != id {
              if j > 0 {
                assert m[j] == m[1..][j - 1];
              }
            }
          }
        }
      }
    }
  }

  /** The parameter and normalised value a filter is written as; none when it has no parameter or the value is empty. */
  function PairOf(m: ParamMap, f: ColumnFilter): (r: Option<(string, string)>)
    ensures r.Some? <==> ParamFor(m, f.id).Some? && ParamFor(m, f.id).value != "" && NormalizeFilterVal(f.value) != ""
    ensures r.Some? ==> r.value == (ParamFor(m, f.id).value, NormalizeFilterVal(f.value))
  {
    match ParamFor(m, f.id)
    case None => None
    case Some(param) =>
      if param == "" then None
      else
        var value := NormalizeFilterVal(f.value);
        if value != "" then Some((param, value)) else None
  }

  function PairOfFn(m: ParamMap): ColumnFilter -> Option<(string, string)>
  {
    f => PairOf(m, f)
  }

  /** The `byParam` list before sorting. */
  function ParamPairs(fs: seq<ColumnFilter>, m: ParamMap): Query
  {
    Choose(fs, PairOfFn(m))
  }

  /** The query string the filters are written as. */
  function SearchStringFor(fs: seq<ColumnFilter>, m: ParamMap): string
  {
    Serialize(WrittenParams(fs, m))
  }

  /** The parameters `buildSearchParamsFromFilterState` sets, in the order it sets them. */
  function WrittenParams(fs: seq<ColumnFilter>, m: ParamMap): Query
  {
    SetAll([], SortBy(ParamPairs(fs, m), KeyLe(Name)))
  }

  /** `buildSearchParamsFromFilterState` */
  method BuildSearchParamsFromFilterState(fs: seq<ColumnFilter>, m: ParamMap) returns (s: string)
    ensures s == SearchStringFor(fs, m)
  {
    var byParam := CollectParamPairs(fs, m);
    var sorted := SortBy(byParam, KeyLe(Name));
    var params := SetEach(sorted);
    s := Serialize(params);
  }

  /** The loop that collects `byParam`: one normalised pair per filter that has a parameter and a value. */
  method CollectParamPairs(fs: seq<ColumnFilter>, m: ParamMap) returns (byParam: Query)
    ensures byParam == ParamPairs(fs, m)
  {
    byParam := [];
    var i := 0;
    while i < |fs|
      invariant 0 <= i <= |fs|
      invariant byParam == ParamPairs(fs[..i], m)
    {
      var f := fs[i];
      ParamPairsStep(fs, i, m);
      var param := ParamFor(m, f.id);
      if param.None? || param.value == "" {
        i := i + 1;
        continue;
      }
      var value := NormalizeFilterVal(f.value);
      if value != "" {
        byParam := byParam + [(param.value, value)];
      }
      i := i + 1;
    }
    assert fs[..i] == fs;
  }

  /** One more filter adds its pair, when it has one, at the end. */
  lemma ParamPairsStep(fs: seq<ColumnFilter>, i: nat, m: ParamMap)
    requires i < |fs|
    ensures PairOf(m, fs[i]).None? ==> ParamPairs(fs[..i + 1], m) == ParamPairs(fs[..i], m)
    ensures PairOf(m, fs[i]).Some? ==> ParamPairs(fs[..i + 1], m) == ParamPairs(fs[..i], m) + [PairOf(m, fs[i]).value]
  {
    ChoosePrefixStep(fs, i, PairOfFn(m));
    assert PairOfFn(m)(fs[i]) == PairOf(m, fs[i]);
    assert ParamPairs(fs[..i], m) + [] == ParamPairs(fs[..i], m);
  }

  /** The loop that calls `params.set(k, v)` for each sorted pair, starting from no parameters. */
  method SetEach(sorted: Query) returns (params: Query)
    ensures params == SetAll([], sorted)
  {
    params := [];
    var j := 0;
    while j < |sorted|
      invariant 0 <= j <= |sorted|
      invariant SetAll(params, sorted[j..]) == SetAll([], sorted)
    {
      assert sorted[j..] == [sorted[j]] + sorted[j + 1..];
      params := Set(params, sorted[j].0, sorted[j].1);
      j := j + 1;
    }
  }

  /** The written query string always parses back to the parameters written. */
  lemma ParseSearchString(fs: seq<ColumnFilter>, m: ParamMap)
    ensures Parse(SearchStringFor(fs, m)) == WrittenParams(fs, m)
  {
    ParseSerialize(WrittenParams(fs, m));
  }

  /**
   * What the grid writes: parameters sorted by name, each name once, each one a key of the map
   * paired with the normalised value of a filter on that key's column; and every filter that
   * has a parameter and a non-empty value is written.
   */
  lemma WrittenParamsShape(fs: seq<ColumnFilter>, m: ParamMap)
    ensures SortedBy(WrittenParams(fs, m), KeyLe(Name)) && DistinctKeys(WrittenParams(fs, m), Name)
    ensures forall p :: p in WrittenParams(fs, m) ==> exists i :: 0 <= i < |fs| && PairOf(m, fs[i]) == Some(p)
    ensures forall p :: p in WrittenParams(fs, m) ==> exists i :: 0 <= i < |m| && m[i].0 == p.0
    ensures forall i :: 0 <= i < |fs| && PairOf(m, fs[i]).Some? ==> Get(WrittenParams(fs, m), PairOf(m, fs[i]).value.0).Some?
  {
    var pairs := ParamPairs(fs, m);
    var sorted := SortBy(pairs, KeyLe(Name));
    KeyLeTotalPreorder(Name);
    SortBySorted(pairs, KeyLe(Name));
    SetAllSorted([], sorted);
    SetAllMembers([], sorted);
    SetAllHasNames([], sorted);
    ChooseMembers(fs, PairOfFn(m));
    forall p | p in WrittenParams(fs, m) ensures exists i :: 0 <= i < |fs| && PairOf(m, fs[i]) == Some(p) {
      assert p in multiset(sorted);
      assert p in pairs;
      var i :| 0 <= i < |fs| && PairOfFn(m)(fs[i]) == Some(p);
    }
    forall p | p in WrittenParams(fs, m) ensures exists i :: 0 <= i < |m| && m[i].0 == p.0 {
      var i :| 0 <= i < |fs| && PairOf(m, fs[i]) == Some(p);
      ParamForFound(m, fs[i].id);
      var a :| 0 <= a < |m| && m[a] == (p.0, fs[i].id) && forall j :: 0 <= j < a ==> m[j].1 != fs[i].id;
    }
    forall i | 0 <= i < |fs| && PairOf(m, fs[i]).Some? ensures Get(WrittenParams(fs, m), PairOf(m, fs[i]).value.0).Some? {
      assert PairOfFn(m)(fs[i]).Some?;
      var p := PairOf(m, fs[i]).value;
      assert p in pairs;
      assert p in multiset(sorted);
    }
  }

  /** Filters on different columns are written under different parameters. */
  lemma PairNamesDistinct(fs: seq<ColumnFilter>, m: ParamMap)
    requires DistinctKeys(fs, FilterId) && DistinctKeys(m, Name)
    ensures DistinctKeys(ParamPairs(fs, m), Name)
  {
    forall i, j | 0 <= i < |fs| && 0 <= j < |fs| && i != j && PairOfFn(m)(fs[i]).Some? && PairOfFn(m)(fs[j]).Some?
      ensures Name(PairOfFn(m)(fs[i]).value) != Name(PairOfFn(m)(fs[j]).value) {
      assert FilterId(fs[i]) != FilterId(fs[j]);
      var pi, pj := ParamFor(m, fs[i].id).value, ParamFor(m, fs[j].id).value;
      ParamForFound(m, fs[i].id);
      ParamForFound(m, fs[j].id);
      var a :| 0 <= a < |m| && m[a] == (pi, fs[i].id) && forall k :: 0 <= k < a ==> m[k].1 != fs[i].id;
      var b :| 0 <= b < |m| && m[b] == (pj, fs[j].id) && forall k :: 0 <= k < b ==> m[k].1 != fs[j].id;
      assert a != b;
      assert Name(m[a]) != Name(m[b]);
    }
    ChooseDistinct(fs, PairOfFn(m), Name);
  }

  /** Sorting a list with distinct keys: the result is sorted, keeps the keys distinct and the same members. */
  lemma SortDistinct<T(!new)>(s: seq<T>, key: T -> string)
    requires DistinctKeys(s, key)
    ensures SortedBy(SortBy(s, KeyLe(key)), KeyLe(key)) && DistinctKeys(SortBy(s, KeyLe(key)), key)
    ensures forall x :: x in SortBy(s, KeyLe(key)) <==> x in s
  {
    KeyLeTotalPreorder(key);
    SortBySorted(s, KeyLe(key));
    DistinctKeysPermutation(s, SortBy(s, KeyLe(key)), key);
    forall x ensures x in SortBy(s, KeyLe(key)) <==> x in s {
      assert x in SortBy(s, KeyLe(key)) <==> x in multiset(SortBy(s, KeyLe(key)));
      assert x in s <==> x in multiset(s);
    }
  }

  /**
   * Reordering filters on different columns leaves the query string exactly as it was: the
   * parameters are written sorted by name.
   */
  lemma SearchStringPermutation(fs1: seq<ColumnFilter>, fs2: seq<ColumnFilter>, m: ParamMap)
    requires multiset(fs1) == multiset(fs2)
    requires DistinctKeys(fs1, FilterId) && DistinctKeys(m, Name)
    ensures SearchStringFor(fs1, m) == SearchStringFor(fs2, m)
  {
    DistinctKeysPermutation(fs1, fs2, FilterId);
    var p1, p2 := ParamPairs(fs1, m), ParamPairs(fs2, m);
    ChoosePermutation(fs1, fs2, PairOfFn(m));
    PairNamesDistinct(fs1, m);
    PairNamesDistinct(fs2, m);
    SortDistinct(p1, Name);
    SortDistinct(p2, Name);
    forall x ensures x in p1 <==> x in p2 {
      assert x in p1 <==> x in multiset(p1);
      assert x in p2 <==> x in multiset(p2);
    }
    SortedByKeyUnique(SortBy(p1, KeyLe(Name)), SortBy(p2, KeyLe(Name)), Name);
  }

  // ---- round trip ----

  /** A filter the grid writes to the query string: its column has a parameter and its value is not empty. */
  predicate Persisted(m: ParamMap, f: ColumnFilter)
  {
    PairOf(m, f).Some?
  }

  function NormalizedFn(): ColumnFilter -> (string, string)
  {
    (f: ColumnFilter) => (f.id, NormalizeFilterVal(f.value))
  }

  /** The form the URL-driven step compares: `{id, value}` with the value normalised, sorted by id. */
  function Canonical(fs: seq<ColumnFilter>): seq<(string, string)>
  {
    SortBy(Map(fs, NormalizedFn()), KeyLe(Name))
  }

  /** With filters on distinct columns, the parameters are written as the sorted pairs themselves. */
  lemma WrittenDistinct(fs: seq<ColumnFilter>, m: ParamMap)
    requires DistinctKeys(fs, FilterId) && DistinctKeys(m, Name)
    ensures WrittenParams(fs, m) == SortBy(ParamPairs(fs, m), KeyLe(Name))
    ensures DistinctKeys(WrittenParams(fs, m), Name)
    ensures forall x :: x in WrittenParams(fs, m) <==> x in ParamPairs(fs, m)
  {
    var sorted := SortBy(ParamPairs(fs, m), KeyLe(Name));
    PairNamesDistinct(fs, m);
    SortDistinct(ParamPairs(fs, m), Name);
    assert [] + sorted == sorted;
    SetAllDistinct([], sorted);
  }

  /** A map entry whose parameter is read back from the written parameters came from a filter on its column. */
  lemma ReadBackEntry(fs: seq<ColumnFilter>, m: ParamMap, i: nat)
    requires DistinctKeys(fs, FilterId) && DistinctKeys(m, Name)
    requires i < |m| && Get(WrittenParams(fs, m), m[i].0).Some?
    ensures exists a :: (0 <= a < |fs| && fs[a].id == m[i].1
      && PairOf(m, fs[a]) == Some((m[i].0, Get(WrittenParams(fs, m), m[i].0).value)))
  {
    var S := WrittenParams(fs, m);
    var v := Get(S, m[i].0).value;
    GetSomeHas(S, m[i].0);
    WrittenDistinct(fs, m);
    ChooseMembers(fs, PairOfFn(m));
    var a :| 0 <= a < |fs| && PairOfFn(m)(fs[a]) == Some((m[i].0, v));
    ParamForFound(m, fs[a].id);
    var b :| 0 <= b < |m| && m[b] == (m[i].0, fs[a].id) && forall j :: 0 <= j < b ==> m[j].1 != fs[a].id;
    assert Name(m[b]) == Name(m[i]);
    assert b == i;
  }

  lemma MapNormalizedDistinct(fs: seq<ColumnFilter>)
    requires DistinctKeys(fs, FilterId)
    ensures DistinctKeys(Map(fs, NormalizedFn()), Name)
  {
    forall i, j | 0 <= i < |fs| && 0 <= j < |fs| && i != j
      ensures Name(Map(fs, NormalizedFn())[i]) != Name(Map(fs, NormalizedFn())[j]) {
      assert FilterId(fs[i]) != FilterId(fs[j]);
    }
  }

  /** The filters read back from the written parameters are on distinct columns. */
  lemma ReadBackDistinct(fs: seq<ColumnFilter>, m: ParamMap)
    requires DistinctKeys(fs, FilterId) && DistinctKeys(m, Name)
    ensures DistinctKeys(FiltersFor(WrittenParams(fs, m), m), FilterId)
  {
    var S := WrittenParams(fs, m);
    var g := FilterFromFn(S);
    forall i, j | 0 <= i < |m| && 0 <= j < |m| && i != j && g(m[i]).Some? && g(m[j]).Some?
      ensures FilterId(g(m[i]).value) != FilterId(g(m[j]).value) {
      ReadBackEntry(fs, m, i);
      ReadBackEntry(fs, m, j);
      var a :| 0 <= a < |fs| && fs[a].id == m[i].1 && PairOf(m, fs[a]) == Some((m[i].0, Get(S, m[i].0).value));
      var b :| 0 <= b < |fs| && fs[b].id == m[j].1 && PairOf(m, fs[b]) == Some((m[j].0, Get(S, m[j].0).value));
      assert Name(m[i]) != Name(m[j]);
      assert ParamFor(m, fs[a].id) != ParamFor(m, fs[b].id);
    }
    ChooseDistinct(m, g, FilterId);
  }

  /** Each filter read back is, normalised, one of the filters written. */
  lemma ReadBackSound(fs: seq<ColumnFilter>, m: ParamMap, c: ColumnFilter)
    requires DistinctKeys(fs, FilterId) && DistinctKeys(m, Name)
    requires c in FiltersFor(WrittenParams(fs, m), m)
    ensures NormalizedFn()(c) in Map(fs, NormalizedFn())
  {
    var S := WrittenParams(fs, m);
    ChooseMembers(m, FilterFromFn(S));
    var i :| 0 <= i < |m| && FilterFromFn(S)(m[i]) == Some(c);
    ReadBackEntry(fs, m, i);
    var v := Get(S, m[i].0).value;
    var a :| 0 <= a < |fs| && fs[a].id == m[i].1 && PairOf(m, fs[a]) == Some((m[i].0, v));
    assert FilterFrom(S, m[i]) == Some(c);
    assert c == ColumnFilter(m[i].1, Str(v));
    assert NormalizeFilterVal(fs[a].value) == v;
    assert NormalizedFn()(c) == (m[i].1, v);
    MapMember(fs, fs[a], NormalizedFn());
  }

  /** A persisted filter's pair is in the written parameters and is what `get` finds under its name. */
  lemma WrittenGet(fs: seq<ColumnFilter>, m: ParamMap, a: nat)
    requires DistinctKeys(fs, FilterId) && DistinctKeys(m, Name)
    requires a < |fs| && Persisted(m, fs[a])
    ensures Get(WrittenParams(fs, m), PairOf(m, fs[a]).value.0) == Some(PairOf(m, fs[a]).value.1)
  {
    var S := WrittenParams(fs, m);
    var pv := PairOf(m, fs[a]).value;
    WrittenDistinct(fs, m);
    ChooseMembers(fs, PairOfFn(m));
    assert PairOfFn(m)(fs[a]) == Some(pv);
    assert pv in S;
    var k :| 0 <= k < |S| && S[k] == pv;
    GetDistinct(S, k);
  }

  /** Each filter written is read back, up to normalisation. */
  lemma ReadBackComplete(fs: seq<ColumnFilter>, m: ParamMap, a: nat)
    requires DistinctKeys(fs, FilterId) && DistinctKeys(m, Name)
    requires a < |fs| && Persisted(m, fs[a])
    ensures NormalizedFn()(fs[a]) in Map(FiltersFor(WrittenParams(fs, m), m), NormalizedFn())
  {
    var S := WrittenParams(fs, m);
    var pv := PairOf(m, fs[a]).value;
    ParamForFound(m, fs[a].id);
    var b :| 0 <= b < |m| && m[b] == (pv.0, fs[a].id) && forall j :: 0 <= j < b ==> m[j].1 != fs[a].id;
    WrittenGet(fs, m, a);
    var c := ColumnFilter(fs[a].id, Str(pv.1));
    assert FilterFromFn(S)(m[b]) == Some(c);
    ChooseMembers(m, FilterFromFn(S));
    MapMember(FiltersFor(S, m), c, NormalizedFn());
    assert NormalizedFn()(c) == NormalizedFn()(fs[a]);
  }

  /** Reading back the written parameters gives every filter again, up to normalisation, and nothing else. */
  lemma ReadBackMembers(fs: seq<ColumnFilter>, m: ParamMap)
    requires DistinctKeys(fs, FilterId) && DistinctKeys(m, Name)
    requires forall a :: 0 <= a < |fs| ==> Persisted(m, fs[a])
    ensures forall x :: x in Map(FiltersFor(WrittenParams(fs, m), m), NormalizedFn()) <==> x in Map(fs, NormalizedFn())
  {
    forall x ensures x in Map(FiltersFor(WrittenParams(fs, m), m), NormalizedFn()) ==> x in Map(fs, NormalizedFn()) {
      ReadBackSoundMember(fs, m, x);
    }
    forall x ensures x in Map(fs, NormalizedFn()) ==> x in Map(FiltersFor(WrittenParams(fs, m), m), NormalizedFn()) {
      ReadBackCompleteMember(fs, m, x);
    }
  }

  lemma ReadBackSoundMember(fs: seq<ColumnFilter>, m: ParamMap, x: (string, string))
    requires DistinctKeys(fs, FilterId) && DistinctKeys(m, Name)
    ensures x in Map(FiltersFor(WrittenParams(fs, m), m), NormalizedFn()) ==> x in Map(fs, NormalizedFn())
  {
    var F := FiltersFor(WrittenParams(fs, m), m);
    if x in Map(F, NormalizedFn()) {
      var k :| 0 <= k < |F| && Map(F, NormalizedFn())[k] == x;
      ReadBackSound(fs, m, F[k]);
    }
  }

  lemma ReadBackCompleteMember(fs: seq<ColumnFilter>, m: ParamMap, x: (string, string))
    requires DistinctKeys(fs, FilterId) && DistinctKeys(m, Name)
    requires forall a :: 0 <= a < |fs| ==> Persisted(m, fs[a])
    ensures x in Map(fs, NormalizedFn()) ==> x in Map(FiltersFor(WrittenParams(fs, m), m), NormalizedFn())
  {
    if x in Map(fs, NormalizedFn()) {
      var a :| 0 <= a < |fs| && Map(fs, NormalizedFn())[a] == x;
      ReadBackComplete(fs, m, a);
    }
  }

  /**
   * Writing filters on distinct columns, all of which the map persists, to the query string and
   * reading them back gives the same filters up to normalisation and order.
   */
  lemma RoundTrip(fs: seq<ColumnFilter>, m: ParamMap)
    requires DistinctKeys(fs, FilterId) && DistinctKeys(m, Name)
    requires forall a :: 0 <= a < |fs| ==> Persisted(m, fs[a])
    ensures Canonical(FiltersFor(Parse(SearchStringFor(fs, m)), m)) == Canonical(fs)
  {
    ParseSearchString(fs, m);
    var F := FiltersFor(WrittenParams(fs, m), m);
    ReadBackMembers(fs, m);
    ReadBackDistinct(fs, m);
    MapNormalizedDistinct(F);
    MapNormalizedDistinct(fs);
    SortDistinct(Map(F, NormalizedFn()), Name);
    SortDistinct(Map(fs, NormalizedFn()), Name);
    SortedByKeyUnique(Canonical(F), Canonical(fs), Name);
  }

  // ---- the two reconciliation steps ----

  /** The grid's two state slots: its column filters and the page's query parameters. */
  datatype GridState = GridState(columnFilters: seq<ColumnFilter>, searchParams: Query)

  /** The URL-driven step: adopt the filters the query string stands for, unless they are already in force. */
  function UrlStep(st: GridState, m: ParamMap): (r: GridState)
    ensures r.searchParams == st.searchParams
    ensures Canonical(r.columnFilters) == Canonical(FiltersFor(st.searchParams, m))
    ensures Canonical(st.columnFilters) == Canonical(FiltersFor(st.searchParams, m)) ==> r == st
    ensures Canonical(st.columnFilters) != Canonical(FiltersFor(st.searchParams, m)) ==>
      r.columnFilters == FiltersFor(st.searchParams, m)
  {
    var next := FiltersFor(st.searchParams, m);
    if Canonical(st.columnFilters) != Canonical(next) then st.(columnFilters := next) else st
  }

  /** Running the URL-driven step again with the same query string changes nothing. */
  lemma UrlStepIdempotent(st: GridState, m: ParamMap)
    ensures UrlStep(UrlStep(st, m), m) == UrlStep(st, m)
  {
  }

  /** The filters the grid starts with are those of the query string, so the first URL-driven step keeps them. */
  lemma InitialStateStable(q: Query, m: ParamMap)
    ensures UrlStep(GridState(FiltersFor(q, m), q), m) == GridState(FiltersFor(q, m), q)
  {
  }

  /** Whether the UI-driven step replaces the query string. */
  predicate UiWritesUrl(st: GridState, next: seq<ColumnFilter>, m: ParamMap)
  {
    Serialize(st.searchParams) != SearchStringFor(next, m)
  }

  /** The UI-driven step: adopt the grid's new filters, and write the query string when it changes. */
  function UiStep(st: GridState, next: seq<ColumnFilter>, m: ParamMap): (r: GridState)
    ensures r.columnFilters == next
    ensures !UiWritesUrl(st, next, m) ==> r.searchParams == st.searchParams
  {
    var target := SearchStringFor(next, m);
    GridState(next, if Serialize(st.searchParams) != target then Parse(target) else st.searchParams)
  }

  /**
   * After the UI-driven step the query string is the one the filters are written as, and its
   * parameters are exactly the written ones: only keys of the map, any other parameter gone.
   */
  lemma UiStepQuery(st: GridState, next: seq<ColumnFilter>, m: ParamMap)
    ensures Serialize(UiStep(st, next, m).searchParams) == SearchStringFor(next, m)
    ensures UiStep(st, next, m).searchParams == WrittenParams(next, m)
    ensures forall p :: p in UiStep(st, next, m).searchParams ==> exists i :: 0 <= i < |m| && m[i].0 == p.0
  {
    ParseSearchString(next, m);
    WrittenParamsShape(next, m);
    if !UiWritesUrl(st, next, m) {
      SerializeInjective(st.searchParams, WrittenParams(next, m));
    }
  }

  /**
   * No feedback loop for filters the query string can carry: when every new filter is on its
   * own column and is persisted, the URL change the UI-driven step makes leads the URL-driven
   * step to keep the filters as they are. Filters it cannot carry are dropped instead, as
   * `TransientFiltersWiped` states.
   */
  lemma NoFeedbackLoop(st: GridState, next: seq<ColumnFilter>, m: ParamMap)
    requires DistinctKeys(next, FilterId) && DistinctKeys(m, Name)
    requires forall a :: 0 <= a < |next| ==> Persisted(m, next[a])
    ensures UrlStep(UiStep(st, next, m), m) == UiStep(st, next, m)
  {
    UiStepQuery(st, next, m);
    ParseSearchString(next, m);
    RoundTrip(next, m);
  }

  /**
   * Whatever the URL-driven step leaves in force is a filter the query string can carry: its
   * column has a parameter and its normalised value is not empty.
   */
  lemma UrlStepFiltersMapped(st: GridState, m: ParamMap)
    ensures forall f :: f in UrlStep(st, m).columnFilters ==>
      ParamFor(m, f.id).Some? && NormalizeFilterVal(f.value) != ""
  {
    var q := st.searchParams;
    var F := FiltersFor(q, m);
    FiltersForMembers(q, m);
    forall f | f in UrlStep(st, m).columnFilters ensures ParamFor(m, f.id).Some? && NormalizeFilterVal(f.value) != "" {
      var g := CanonicalMember(UrlStep(st, m).columnFilters, F, f);
      assert g in F;
      var i :| 0 <= i < |m| && m[i].1 == g.id && Get(q, m[i].0).Some? && Get(q, m[i].0).value != ""
        && g.value == Str(Get(q, m[i].0).value);
      ParamForFound(m, f.id);
    }
  }

  /** Filters with the same canonical form share every column and normalised value. */
  lemma CanonicalMember(fs: seq<ColumnFilter>, gs: seq<ColumnFilter>, f: ColumnFilter) returns (g: ColumnFilter)
    requires Canonical(fs) == Canonical(gs) && f in fs
    ensures g in gs && g.id == f.id && NormalizeFilterVal(g.value) == NormalizeFilterVal(f.value)
  {
    var nf := NormalizedFn()(f);
    MapMember(fs, f, NormalizedFn());
    assert nf in multiset(Canonical(fs));
    assert nf in multiset(Map(gs, NormalizedFn()));
    var k :| 0 <= k < |gs| && Map(gs, NormalizedFn())[k] == nf;
    g := gs[k];
  }

  /**
   * A filter the query string cannot carry does not survive a UI change that rewrites the URL:
   * the URL-driven step the new query string sets off drops a filter on a column without a
   * parameter, and every filter on its column, and a filter whose value normalises to `""`.
   */
  lemma TransientFiltersWiped(st: GridState, next: seq<ColumnFilter>, m: ParamMap, a: nat)
    requires a < |next|
    requires UiWritesUrl(st, next, m)
    requires ParamFor(m, next[a].id).None? || NormalizeFilterVal(next[a].value) == ""
    ensures next[a] !in UrlStep(UiStep(st, next, m), m).columnFilters
    ensures UrlStep(UiStep(st, next, m), m).columnFilters != next
    ensures ParamFor(m, next[a].id).None? ==>
      forall f :: f in UrlStep(UiStep(st, next, m), m).columnFilters ==> f.id != next[a].id
  {
    UrlStepFiltersMapped(UiStep(st, next, m), m);
    assert next[a] in next;
  }

  /**
   * When the UI change leaves the query string as it is, no URL-driven step follows, and such a
   * filter stays in the grid's state.
   */
  lemma TransientFiltersKept(st: GridState, next: seq<ColumnFilter>, m: ParamMap, a: nat)
    requires a < |next|
    requires !UiWritesUrl(st, next, m)
    ensures UiStep(st, next, m) == GridState(next, st.searchParams)
    ensures next[a] in UiStep(st, next, m).columnFilters
  {
  }

  /**
   * The grid's own parameter map meets the round trip's demands on the map, so for the grid a
   * UI change of persisted filters with distinct columns reads back as itself and settles.
   */
  lemma GridSettles(st: GridState, next: seq<ColumnFilter>)
    requires DistinctKeys(next, FilterId)
    requires forall a :: 0 <= a < |next| ==> Persisted(FilterParamMap, next[a])
    ensures Canonical(FiltersFor(Parse(SearchStringFor(next, FilterParamMap)), FilterParamMap)) == Canonical(next)
    ensures UrlStep(UiStep(st, next, FilterParamMap), FilterParamMap) == UiStep(st, next, FilterParamMap)
  {
    FilterParamMapKeys();
    RoundTrip(next, FilterParamMap);
    NoFeedbackLoop(st, next, FilterParamMap);
  }

  /** The grid's parameters are the keys of a record, so they are distinct. */
  lemma FilterParamMapKeys()
    ensures DistinctKeys(FilterParamMap, Name)
  {
    ParamNameLengths();
    forall i, j | 0 <= i < |FilterParamMap| && 0 <= j < |FilterParamMap| && i != j
      ensures Name(FilterParamMap[i]) != Name(FilterParamMap[j])
    {
      if {i, j} == {4, 6} {
        // the two names of length 13 differ at their eighth letter
        assert Name(FilterParamMap[4])[7] != Name(FilterParamMap[6])[7];
      }
    }
  }

  lemma ParamNameLengths()
    ensures forall i :: 0 <= i < |FilterParamMap| ==> |Name(FilterParamMap[i])| == [12, 9, 10, 6, 13, 19, 13][i]
  {
  }

  /** The grid, holding the two state slots the reconciliation steps update. */
  class GridSync {
    var columnFilters: seq<ColumnFilter>
    var searchParams: Query

    function State(): GridState
      reads this
    {
      GridState(columnFilters, searchParams)
    }

    /** The grid opens with the filters of the page's query string. */
    constructor (q: Query)
      ensures searchParams == q && columnFilters == FiltersFor(q, FilterParamMap)
    {
      var filters := BuildFilterStateFromSearchParams(q, FilterParamMap);
      searchParams := q;
      columnFilters := filters;
    }

    /** The router changed the query string: run the URL-driven step. */
    method OnSearchParamsChange(q: Query)
      modifies this
      ensures State() == UrlStep(GridState(old(columnFilters), q), FilterParamMap)
    {
      searchParams := q;
      var next := BuildFilterStateFromSearchParams(q, FilterParamMap);
      var currentNormalized := Canonical(columnFilters);
      var nextNormalized := Canonical(next);
      if currentNormalized != nextNormalized {
        columnFilters := next;
      }
    }

    /** `onColumnFiltersChange`: adopt `next`, and say whether the query string was replaced. */
    method OnColumnFiltersChange(next: seq<ColumnFilter>) returns (replaced: bool)
      modifies this
      ensures State() == UiStep(old(State()), next, FilterParamMap)
      ensures replaced == UiWritesUrl(old(State()), next, FilterParamMap)
    {
      var target := BuildSearchParamsFromFilterState(next, FilterParamMap);
      var curr := Serialize(searchParams);
      replaced := curr != target;
      if replaced {
        searchParams := Parse(target);
      }
      columnFilters := next;
    }
  }

  // ---- the colorModes column filter ----

  /** Some element of `cell`, stringified and lower-cased, contains `needle`. */
  function SomeIncludes(cell: seq<JsValue>, needle: string): (b: bool)
    ensures b <==> exists i :: 0 <= i < |cell| && Includes(ToLower(ToString(cell[i])), needle)
  {
    if cell == [] then false
    else if Includes(ToLower(ToString(cell[0])), needle) then true
    else
      assert forall i :: 1 <= i < |cell| ==> cell[i] == cell[1..][i - 1];
      SomeIncludes(cell[1..], needle)
  }

  /** The `filterFn` of the color-modes column. */
  function ColorModesFilter(cell: JsValue, filterValue: JsValue): (b: bool)
    ensures !cell.Arr? ==> !b
    ensures cell.Arr? && !Truthy(filterValue) ==> b
    ensures cell.Arr? && Truthy(filterValue) ==>
      (b <==> exists i :: 0 <= i < |cell.items| && Includes(ToLower(ToString(cell.items[i])), ToLower(ToString(filterValue))))
  {
    if !cell.Arr? then false
    else if !Truthy(filterValue) then true
    else SomeIncludes(cell.items, ToLower(ToString(filterValue)))
  }

  /** The filter ignores the case of the typed value. */
  lemma ColorModesFilterCaseInsensitive(cell: JsValue, s: string)
    ensures ColorModesFilter(cell, Str(s)) == ColorModesFilter(cell, Str(ToLower(s)))
  {
    assert ToLower(ToLower(s)) == ToLower(s);
  }

  /** A color mode selected in the filter matches every row listing it. */
  lemma ColorModesFilterExact(items: seq<JsValue>, i: nat, s: string)
    requires i < |items| && items[i] == Str(s)
    ensures ColorModesFilter(Arr(items), Str(s))
  {
    if s != "" {
      assert OccursAt(ToLower(ToString(items[i])), ToLower(s), 0);
    }
  }
}
