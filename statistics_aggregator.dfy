/**
 * The frequency table behind the "Top N" statistics cards: one value is extracted per power
 * profile, truthy values are counted per distinct value, the buckets are ordered by count
 * (highest first) and only the first `resultsCount` of them are shown.
 */
module StatisticsAggregator {
  import opened Wrappers
  import opened Strings
  import opened Sorting
  import opened JsValues

  /** A power profile as the aggregator sees it: its own fields by name. */
  type Profile = map<string, JsValue>

  /** `propertyPath`: one top-level field, or a path of nested keys. */
  datatype PropertyPath = Key(name: string) | Path(keys: seq<string>)

  /** How a card extracts its value: the optional `valueExtractor`, else `propertyPath`. */
  datatype Source = Source(extractor: Option<Profile -> JsValue>, propertyPath: PropertyPath)

  datatype StatItem = StatItem(name: string, count: nat)

  function ItemName(item: StatItem): string
  {
    item.name
  }

  // ---- value extraction ----

  /**
   * The nested walk: each key is followed while the current value is a truthy object that has
   * it; otherwise the walk stops with `undefined`.
   */
  function Walk(current: JsValue, path: seq<string>): JsValue
    decreases |path|
  {
    if path == [] then current
    else if Truthy(current) && (current.Obj? || current.Arr?) && Member(current, path[0]).Some? then
      Walk(Member(current, path[0]).value, path[1..])
    else Undefined
  }

  /** The `for ... of` loop over the path, with its early `break`. */
  method WalkPath(profile: Profile, path: seq<string>) returns (current: JsValue)
    ensures current == Walk(Obj(profile), path)
  {
    current := Obj(profile);
    var i := 0;
    while i < |path|
      invariant 0 <= i <= |path|
      invariant Walk(current, path[i..]) == Walk(Obj(profile), path)
    {
      var key := path[i];
      assert path[i..][0] == key && path[i..][1..] == path[i + 1..];
      if Truthy(current) && (current.Obj? || current.Arr?) && Member(current, key).Some? {
        current := Member(current, key).value;
      } else {
        current := Undefined;
        break;
      }
      i := i + 1;
    }
  }

  /** Once the walk has failed it stays failed. */
  lemma {:induction false} WalkUndefined(path: seq<string>)
    ensures Walk(Undefined, path) == Undefined
  {
  }

  /** Walking a concatenated path is walking its two halves one after the other. */
  lemma {:induction false} WalkConcat(current: JsValue, p: seq<string>, q: seq<string>)
    ensures Walk(current, p + q) == Walk(Walk(current, p), q)
    decreases |p|
  {
    if p == [] {
      assert p + q == q;
    } else {
      assert (p + q)[0] == p[0] && (p + q)[1..] == p[1..] + q;
      if Truthy(current) && (current.Obj? || current.Arr?) && Member(current, p[0]).Some? {
        WalkConcat(Member(current, p[0]).value, p[1..], q);
      } else {
        if q != [] {
          assert !Truthy(Undefined);
        }
      }
    }
  }

  /** The value a card counts for one profile; a supplied extractor takes precedence over the path. */
  function Extract(src: Source, p: Profile): (v: JsValue)
    ensures src.extractor.Some? ==> v == src.extractor.value(p)
    ensures src.extractor.None? && src.propertyPath.Key? ==>
      v == if src.propertyPath.name in p then p[src.propertyPath.name] else Undefined
  {
    match src.extractor
    case Some(f) => f(p)
    case None =>
      match src.propertyPath
      case Key(k) => if k in p then p[k] else Undefined
      case Path(ks) => Walk(Obj(p), ks)
  }

  /** A one-key path reads the same field as the plain top-level key. */
  lemma KeyIsOneStepPath(p: Profile, k: string)
    ensures Extract(Source(None, Path([k])), p) == Extract(Source(None, Key(k)), p)
  {
    assert [k][1..] == [];
    assert Member(Obj(p), k) == if k in p then Some(p[k]) else None;
    if k in p {
      assert Walk(Obj(p), [k]) == Walk(p[k], []) == p[k];
    } else {
      assert Walk(Obj(p), [k]) == Undefined;
    }
  }

  /** The bucket a value is counted in: `counts[value]` for a truthy value, none for a falsy one. */
  function Bucket(v: JsValue): (r: Option<string>)
    ensures r.Some? <==> Truthy(v)
  {
    if Truthy(v) then Some(ToString(v)) else None
  }

  // ---- the counts dictionary ----

  /** `counts[k] || 0`: the count of the entry named `k`, 0 when there is none. */
  function Lookup(counts: seq<StatItem>, k: string): nat
  {
    if counts == [] then 0 else if counts[0].name == k then counts[0].count else Lookup(counts[1..], k)
  }

  predicate HasName(counts: seq<StatItem>, k: string)
  {
    exists i :: 0 <= i < |counts| && counts[i].name == k
  }

  lemma HasNameCons(counts: seq<StatItem>)
    requires counts != []
    ensures forall x :: HasName(counts, x) <==> (counts[0].name == x || HasName(counts[1..], x))
  {
    forall x ensures HasName(counts, x) <==> (counts[0].name == x || HasName(counts[1..], x)) {
      if HasName(counts, x) && counts[0].name != x {
        var i :| 0 <= i < |counts| && counts[i].name == x;
        assert counts[1..][i - 1].name == x;
      }
      if HasName(counts[1..], x) {
        var i :| 0 <= i < |counts[1..]| && counts[1..][i].name == x;
        assert counts[i + 1].name == x;
      }
    }
  }

  function SumCounts(counts: seq<StatItem>): nat
  {
    if counts == [] then 0 else counts[0].count + SumCounts(counts[1..])
  }

  /**
   * `counts[k] = (counts[k] || 0) + 1` on an insertion-ordered dictionary: an existing entry
   * is incremented in place, a new one is appended.
   */
  function Bump(counts: seq<StatItem>, k: string): (r: seq<StatItem>)
    ensures SumCounts(r) == SumCounts(counts) + 1
  {
    if counts == [] then [StatItem(k, 1)]
    else if counts[0].name == k then [StatItem(k, counts[0].count + 1)] + counts[1..]
    else [counts[0]] + Bump(counts[1..], k)
  }

  /** Only the bumped name's count goes up, by one. */
  lemma {:induction false} BumpLookup(counts: seq<StatItem>, k: string)
    ensures forall x :: Lookup(Bump(counts, k), x) == Lookup(counts, x) + (if x == k then 1 else 0)
  {
    if counts != [] && counts[0].name != k {
      BumpLookup(counts[1..], k);
      assert Bump(counts, k)[1..] == Bump(counts[1..], k);
    }
  }

  /** The bumped name is added to the names if it was not there, and nothing else changes. */
  lemma {:induction false} BumpNames(counts: seq<StatItem>, k: string)
    ensures forall x :: HasName(Bump(counts, k), x) <==> HasName(counts, x) || x == k
    ensures |Bump(counts, k)| == if HasName(counts, k) then |counts| else |counts| + 1
  {
    var r := Bump(counts, k);
    if counts == [] {
      assert r[0].name == k;
    } else {
      HasNameCons(counts);
      HasNameCons(r);
      assert r[1..] == if counts[0].name == k then counts[1..] else Bump(counts[1..], k);
      if counts[0].name != k {
        BumpNames(counts[1..], k);
      }
    }
  }

  /** Bumping keeps the names distinct. */
  lemma {:induction false} BumpDistinct(counts: seq<StatItem>, k: string)
    requires DistinctKeys(counts, ItemName)
    ensures DistinctKeys(Bump(counts, k), ItemName)
  {
    var r := Bump(counts, k);
    if counts != [] {
      var tail := counts[1..];
      assert DistinctKeys(tail, ItemName) by {
        forall i, j | 0 <= i < |tail| && 0 <= j < |tail| && i != j ensures ItemName(tail[i]) != ItemName(tail[j]) {
          assert tail[i] == counts[i + 1] && tail[j] == counts[j + 1];
        }
      }
      assert !HasName(tail, counts[0].name) by {
        forall i | 0 <= i < |tail| ensures tail[i].name != counts[0].name {
          assert ItemName(counts[i + 1]) != ItemName(counts[0]);
        }
      }
      var rest := r[1..];
      if counts[0].name == k {
        assert rest == tail;
      } else {
        assert rest == Bump(tail, k);
        BumpDistinct(tail, k);
        BumpNames(tail, k);
      }
      assert !HasName(rest, r[0].name);
      forall i, j | 0 <= i < |r| && 0 <= j < |r| && i != j ensures ItemName(r[i]) != ItemName(r[j]) {
        if i == 0 {
          assert r[j] == rest[j - 1];
        } else if j == 0 {
          assert r[i] == rest[i - 1];
        } else {
          assert r[i] == rest[i - 1] && r[j] == rest[j - 1];
        }
      }
    }
  }

  /** The dictionary after the `forEach` over `profiles`. */
  function Tally(profiles: seq<Profile>, src: Source): seq<StatItem>
  {
    if profiles == [] then []
    else
      var counts := Tally(profiles[..|profiles| - 1], src);
      match Bucket(Extract(src, profiles[|profiles| - 1]))
      case Some(k) => Bump(counts, k)
      case None => counts
  }

  /** The number of profiles whose extracted value is counted under `k`. */
  function ProfilesWith(profiles: seq<Profile>, src: Source, k: string): nat
  {
    if profiles == [] then 0
    else
      ProfilesWith(profiles[..|profiles| - 1], src, k)
      + (if Bucket(Extract(src, profiles[|profiles| - 1])) == Some(k) then 1 else 0)
  }

  /** The number of profiles whose extracted value is truthy. */
  function Bucketed(profiles: seq<Profile>, src: Source): (n: nat)
    ensures n <= |profiles|
  {
    if profiles == [] then 0
    else
      Bucketed(profiles[..|profiles| - 1], src)
      + (if Bucket(Extract(src, profiles[|profiles| - 1])).Some? then 1 else 0)
  }

  /**
   * Every count is the number of profiles with that value, a name is present exactly when some
   * profile has it, names are distinct, and the counts add up to the truthy profiles.
   */
  lemma {:induction false} TallyCounts(profiles: seq<Profile>, src: Source)
    ensures forall k :: Lookup(Tally(profiles, src), k) == ProfilesWith(profiles, src, k)
    ensures forall k :: HasName(Tally(profiles, src), k) <==> ProfilesWith(profiles, src, k) > 0
    ensures DistinctKeys(Tally(profiles, src), ItemName)
    ensures SumCounts(Tally(profiles, src)) == Bucketed(profiles, src)
  {
    if profiles != [] {
      var init := profiles[..|profiles| - 1];
      TallyCounts(init, src);
      match Bucket(Extract(src, profiles[|profiles| - 1]))
      case Some(k) =>
        BumpLookup(Tally(init, src), k);
        BumpNames(Tally(init, src), k);
        BumpDistinct(Tally(init, src), k);
      case None =>
    }
  }

  /** The count stored under a name of a dictionary with distinct names is its `Lookup`. */
  lemma {:induction false} LookupAt(counts: seq<StatItem>, i: nat)
    requires i < |counts| && DistinctKeys(counts, ItemName)
    ensures Lookup(counts, counts[i].name) == counts[i].count
  {
    if i > 0 {
      assert counts[0].name != counts[i].name by {
        assert ItemName(counts[0]) != ItemName(counts[i]);
      }
      assert DistinctKeys(counts[1..], ItemName) by {
        forall a, b | 0 <= a < |counts[1..]| && 0 <= b < |counts[1..]| && a != b
          ensures ItemName(counts[1..][a]) != ItemName(counts[1..][b])
        {
          assert counts[1..][a] == counts[a + 1] && counts[1..][b] == counts[b + 1];
        }
      }
      LookupAt(counts[1..], i - 1);
    }
  }

  /** A profile whose value is falsy leaves the dictionary as it was. */
  lemma FalsyNotCounted(profiles: seq<Profile>, src: Source, p: Profile)
    requires !Truthy(Extract(src, p))
    ensures Tally(profiles + [p], src) == Tally(profiles, src)
  {
    assert (profiles + [p])[..|profiles|] == profiles;
  }

  /** The `forEach` loop that fills the `counts` dictionary. */
  method CountValues(profiles: seq<Profile>, src: Source) returns (counts: seq<StatItem>)
    ensures counts == Tally(profiles, src)
  {
    counts := [];
    var i := 0;
    while i < |profiles|
      invariant 0 <= i <= |profiles|
      invariant counts == Tally(profiles[..i], src)
    {
      var profile := profiles[i];
      var value: JsValue;
      if src.extractor.Some? {
        value := src.extractor.value(profile);
      } else if src.propertyPath.Key? {
        var k := src.propertyPath.name;
        value := if k in profile then profile[k] else Undefined;
      } else {
        value := WalkPath(profile, src.propertyPath.keys);
      }
      assert profiles[..i + 1][..i] == profiles[..i];
      if Truthy(value) {
        counts := Bump(counts, ToString(value));
      }
      i := i + 1;
    }
    assert profiles[..i] == profiles;
  }

  // ---- ordering and display ----

  /** The comparator `b.count - a.count`: `a` may come first when its count is not smaller. */
  function CountDesc(): (StatItem, StatItem) -> bool
  {
    (a: StatItem, b: StatItem) => b.count <= a.count
  }

  /** `items`: the dictionary's entries sorted by count, highest first. */
  function Items(profiles: seq<Profile>, src: Source): seq<StatItem>
  {
    SortBy(Tally(profiles, src), CountDesc())
  }

  lemma CountDescTotalPreorder()
    ensures TotalPreorder(CountDesc())
  {
  }

  /**
   * `items` is ordered by non-increasing count, lists every counted value exactly once, and
   * each entry's count is the number of profiles with that value.
   */
  lemma ItemsShape(profiles: seq<Profile>, src: Source)
    ensures SortedBy(Items(profiles, src), CountDesc())
    ensures forall i, j :: 0 <= i < j < |Items(profiles, src)| ==> Items(profiles, src)[i].count >= Items(profiles, src)[j].count
    ensures multiset(Items(profiles, src)) == multiset(Tally(profiles, src))
    ensures DistinctKeys(Items(profiles, src), ItemName)
    ensures forall i :: 0 <= i < |Items(profiles, src)| ==>
      Items(profiles, src)[i].count == ProfilesWith(profiles, src, Items(profiles, src)[i].name)
    ensures forall k :: HasName(Items(profiles, src), k) <==> ProfilesWith(profiles, src, k) > 0
  {
    ItemsOrdered(profiles, src);
    ItemsDistinct(profiles, src);
    ItemsCounts(profiles, src);
    ItemsNames(profiles, src);
  }

  lemma ItemsOrdered(profiles: seq<Profile>, src: Source)
    ensures SortedBy(Items(profiles, src), CountDesc())
    ensures forall i, j :: 0 <= i < j < |Items(profiles, src)| ==> Items(profiles, src)[i].count >= Items(profiles, src)[j].count
  {
    CountDescTotalPreorder();
    SortBySorted(Tally(profiles, src), CountDesc());
  }

  lemma ItemsDistinct(profiles: seq<Profile>, src: Source)
    ensures multiset(Items(profiles, src)) == multiset(Tally(profiles, src))
    ensures DistinctKeys(Items(profiles, src), ItemName)
  {
    CountDescTotalPreorder();
    SortBySorted(Tally(profiles, src), CountDesc());
    TallyCounts(profiles, src);
    DistinctKeysPermutation(Tally(profiles, src), Items(profiles, src), ItemName);
  }

  lemma ItemsCounts(profiles: seq<Profile>, src: Source)
    ensures forall i :: 0 <= i < |Items(profiles, src)| ==>
      Items(profiles, src)[i].count == ProfilesWith(profiles, src, Items(profiles, src)[i].name)
  {
    var t := Tally(profiles, src);
    var items := Items(profiles, src);
    CountDescTotalPreorder();
    SortBySorted(t, CountDesc());
    TallyCounts(profiles, src);
    forall i | 0 <= i < |items| ensures items[i].count == ProfilesWith(profiles, src, items[i].name) {
      assert items[i] in multiset(t);
      var j :| 0 <= j < |t| && t[j] == items[i];
      LookupAt(t, j);
    }
  }

  lemma ItemsNames(profiles: seq<Profile>, src: Source)
    ensures forall k :: HasName(Items(profiles, src), k) <==> ProfilesWith(profiles, src, k) > 0
  {
    var t := Tally(profiles, src);
    var items := Items(profiles, src);
    CountDescTotalPreorder();
    SortBySorted(t, CountDesc());
    TallyCounts(profiles, src);
    forall k ensures HasName(items, k) <==> HasName(t, k) {
      if HasName(items, k) {
        var i :| 0 <= i < |items| && items[i].name == k;
        assert items[i] in multiset(t);
        var j :| 0 <= j < |t| && t[j] == items[i];
      }
      if HasName(t, k) {
        var j :| 0 <= j < |t| && t[j].name == k;
        assert t[j] in multiset(items);
        var i :| 0 <= i < |items| && items[i] == t[j];
      }
    }
  }

  /** The counts add up to at most the number of profiles. */
  lemma CountsBounded(profiles: seq<Profile>, src: Source)
    ensures SumCounts(Tally(profiles, src)) <= |profiles|
  {
    TallyCounts(profiles, src);
  }

  /** `Top <digits>` occurs at `i`. */
  predicate TopAt(s: string, i: nat)
  {
    OccursAt(s, "Top ", i) && i + 4 < |s| && IsDigit(s[i + 4])
  }

  /** The leftmost match of `/Top \d+/` at or after `from`. */
  function FirstTop(s: string, from: nat): (r: Option<nat>)
    ensures r.Some? ==> from <= r.value && TopAt(s, r.value)
    ensures forall j :: from <= j && (r.None? || j < r.value) ==> !TopAt(s, j)
    decreases |s| - from
  {
    if from >= |s| then None
    else if TopAt(s, from) then Some(from)
    else FirstTop(s, from + 1)
  }

  /** The end of the run of digits starting at `k`: what the greedy `\d+` consumes. */
  function DigitsEnd(s: string, k: nat): (j: nat)
    requires k <= |s|
    ensures k <= j <= |s|
    ensures forall m :: k <= m < j ==> IsDigit(s[m])
    ensures j == |s| || !IsDigit(s[j])
    decreases |s| - k
  {
    if k < |s| && IsDigit(s[k]) then DigitsEnd(s, k + 1) else k
  }

  /** `title.replace(/Top \d+/, \`Top ${n}\`)` */
  function ReplaceTopN(title: string, n: nat): string
  {
    match FirstTop(title, 0)
    case None => title
    case Some(i) => title[..i] + "Top " + NatToString(n) + title[DigitsEnd(title, i + 4)..]
  }

  /**
   * The rewritten title says `Top <n>` where the first `Top <digits>` was, keeps everything
   * around it, and a title without one is left alone.
   */
  lemma ReplaceTopNShape(title: string, n: nat)
    ensures FirstTop(title, 0).None? ==> ReplaceTopN(title, n) == title
    ensures FirstTop(title, 0).Some? ==>
      var i := FirstTop(title, 0).value;
      var r := ReplaceTopN(title, n);
      && FirstTop(r, 0) == Some(i)
      && DigitsEnd(r, i + 4) == i + 4 + |NatToString(n)|
      && r[i + 4..i + 4 + |NatToString(n)|] == NatToString(n)
      && r[..i] == title[..i]
      && r[i + 4 + |NatToString(n)|..] == title[DigitsEnd(title, i + 4)..]
  {
    if FirstTop(title, 0).Some? {
      var i := FirstTop(title, 0).value;
      var d := NatToString(n);
      var e := DigitsEnd(title, i + 4);
      var r := ReplaceTopN(title, n);
      Splice(title[..i], "Top ", d, title[e..]);
      assert r[i + 4] == d[0];
      assert TopAt(r, i);
      assert r[..i + 4] == title[..i + 4];
      SamePrefixNoTop(title, r, i);
      FirstTopAt(r, i);
      DigitsRun(r, i + 4, i + 4 + |d|);
    }
  }

  /** The pieces of a four-part concatenation are where their lengths put them. */
  lemma Splice(a: string, b: string, c: string, x: string)
    ensures var r := a + b + c + x;
      && r[..|a|] == a && r[|a|..|a| + |b|] == b && r[|a| + |b|..|a| + |b| + |c|] == c
      && r[|a| + |b| + |c|..] == x
  {
  }

  /** A `Top <digit>` with none before it is the first one. */
  lemma FirstTopAt(s: string, i: nat)
    requires TopAt(s, i) && forall j :: 0 <= j < i ==> !TopAt(s, j)
    ensures FirstTop(s, 0) == Some(i)
  {
  }

  /** Whether `Top <digit>` starts before `i` depends only on the first `i + 4` characters. */
  lemma SamePrefixNoTop(a: string, b: string, i: nat)
    requires i + 4 <= |a| && i + 4 <= |b| && a[..i + 4] == b[..i + 4]
    requires forall j :: 0 <= j < i ==> !TopAt(a, j)
    ensures forall j :: 0 <= j < i ==> !TopAt(b, j)
  {
    forall j | 0 <= j < i ensures !TopAt(b, j) {
      assert a[j..j + 4] == a[..i + 4][j..j + 4] == b[..i + 4][j..j + 4] == b[j..j + 4];
      assert a[j + 4] == a[..i + 4][j + 4] == b[..i + 4][j + 4] == b[j + 4];
      assert !TopAt(a, j);
    }
  }

  /** A maximal run of digits ends where `DigitsEnd` says. */
  lemma {:induction false} DigitsRun(s: string, k: nat, j: nat)
    requires k <= j <= |s|
    requires forall m :: k <= m < j ==> IsDigit(s[m])
    requires j == |s| || !IsDigit(s[j])
    ensures DigitsEnd(s, k) == j
    decreases j - k
  {
    if k < j {
      DigitsRun(s, k + 1, j);
    }
  }

  /** Showing the same number again changes nothing: the rewrite is idempotent. */
  lemma ReplaceTopNIdempotent(title: string, n: nat)
    ensures ReplaceTopN(ReplaceTopN(title, n), n) == ReplaceTopN(title, n)
  {
    ReplaceTopNShape(title, n);
    if FirstTop(title, 0).Some? {
      var i := FirstTop(title, 0).value;
      var r := ReplaceTopN(title, n);
      var d := NatToString(n);
      assert r == r[..i] + "Top " + d + r[i + 4 + |d|..] by {
        assert r[i..i + 4] == "Top ";
      }
    }
  }

  /** The statistics card: its `items` and `resultsCount` state slots. */
  class Aggregator {
    var items: seq<StatItem>
    var resultsCount: nat

    constructor ()
      ensures items == [] && resultsCount == 10
    {
      items := [];
      resultsCount := 10;
    }

    /**
     * The effect: recompute `items` from the library's profiles, but only when the data has
     * loaded without error and there is at least one profile; otherwise keep the last list.
     */
    method Refresh(profiles: seq<Profile>, loading: bool, failed: bool, src: Source)
      modifies this
      ensures items == if !loading && !failed && |profiles| > 0 then Items(profiles, src) else old(items)
      ensures resultsCount == old(resultsCount)
    {
      if !loading && !failed && |profiles| > 0 {
        var counts := CountValues(profiles, src);
        items := SortBy(counts, CountDesc());
      }
    }

    /** `onResultsCountChange` */
    method SetResultsCount(n: nat)
      modifies this
      ensures resultsCount == n && items == old(items)
    {
      resultsCount := n;
    }

    /** `items.slice(0, resultsCount)` */
    function Displayed(): (r: seq<StatItem>)
      reads this
      ensures |r| == if resultsCount < |items| then resultsCount else |items|
      ensures r <= items
    {
      Take(items, resultsCount)
    }

    function AggregationsCount(): nat
      reads this
    {
      |items|
    }

    function DisplayTitle(title: string): string
      reads this
    {
      ReplaceTopN(title, resultsCount)
    }
  }

  /** Showing fewer results shows a prefix of what showing more would: the order never changes. */
  lemma TakeMonotone<T>(s: seq<T>, n: nat, m: nat)
    requires n <= m
    ensures Take(s, n) <= Take(s, m)
  {
  }
}
