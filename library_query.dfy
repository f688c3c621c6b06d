/**
 * The library query's `queryFn` after both requests have resolved: it joins the analytics
 * into the library listing and builds the profile list, the profile index by
 * `dir_name/id`, and the authors and manufacturers tables.
 */
module LibraryQuery {
  import opened Wrappers
  import opened Sorting
  import opened Lists
  import opened KeyedIndex
  import opened LibraryApi
  import opened ProfileMappers

  datatype LibraryData = LibraryData(
    powerProfiles: seq<PowerProfile>,
    powerProfilesByKey: map<string, PowerProfile>,
    total: nat,
    authors: map<string, Author>,
    manufacturers: map<string, Manufacturer>)

  /** `${stat.manufacturer}/${stat.model}` */
  function StatKey(stat: ProfileStats): string
  {
    stat.manufacturer + "/" + stat.model
  }

  /** `createAnalyticsMap`: one `set` per analytics entry, so a later duplicate replaces an earlier one. */
  method CreateAnalyticsMap(analyticsData: seq<ProfileStats>) returns (m: map<string, ProfileStats>)
    ensures m == Index(analyticsData, StatKey)
  {
    m := map[];
    var i := 0;
    while i < |analyticsData|
      invariant 0 <= i <= |analyticsData|
      invariant m == Index(analyticsData[..i], StatKey)
    {
      var stat := analyticsData[i];
      assert analyticsData[..i + 1][..i] == analyticsData[..i];
      m := m[StatKey(stat) := stat];
      i := i + 1;
    }
    assert analyticsData[..i] == analyticsData;
  }

  /** The analytics index holds every entry's key, each under the last entry with that key. */
  lemma AnalyticsMapLastWins(analyticsData: seq<ProfileStats>)
    ensures forall k :: k in Index(analyticsData, StatKey) <==> exists i :: 0 <= i < |analyticsData| && StatKey(analyticsData[i]) == k
    ensures forall k :: k in Index(analyticsData, StatKey) ==>
      exists i :: LastWith(analyticsData, StatKey, k, i) && Index(analyticsData, StatKey)[k] == analyticsData[i]
  {
    IndexLastWins(analyticsData, StatKey);
  }

  /** `getUsageStats`: every figure the entry lacks, or all of them without an entry, is 0. */
  function GetUsageStats(stat: Option<ProfileStats>): (u: UsageStats)
    ensures stat.None? ==> u == UsageStats(0, 0, 0.0)
    ensures stat.Some? ==> u.installationCount == stat.value.installationCount.GetOr(0)
    ensures stat.Some? ==> u.deviceCount == stat.value.count.GetOr(0)
    ensures stat.Some? ==> u.percentage == stat.value.percentage.GetOr(0.0)
  {
    match stat
    case None => UsageStats(0, 0, 0.0)
    case Some(s) => UsageStats(s.installationCount.GetOr(0), s.count.GetOr(0), s.percentage.GetOr(0.0))
  }

  /** `analyticsMap.get(key)` */
  function Get(m: map<string, ProfileStats>, key: string): Option<ProfileStats>
  {
    if key in m then Some(m[key]) else None
  }

  // ---- the specification of the assembly ----

  /** One model of one manufacturer, in the order the loops visit them. */
  datatype Row = Row(maker: ManufacturerData, model: LibraryModel)

  function ModelsOf(md: ManufacturerData): seq<LibraryModel>
  {
    md.models.GetOr([])
  }

  function RowsOf(md: ManufacturerData): (r: seq<Row>)
    ensures |r| == |ModelsOf(md)|
    ensures forall j :: 0 <= j < |r| ==> r[j] == Row(md, ModelsOf(md)[j])
  {
    seq(|ModelsOf(md)|, j requires 0 <= j < |ModelsOf(md)| => Row(md, ModelsOf(md)[j]))
  }

  /** Manufacturer by manufacturer, model by model. */
  function Rows(mds: seq<ManufacturerData>): seq<Row>
  {
    if mds == [] then [] else Rows(mds[..|mds| - 1]) + RowsOf(mds[|mds| - 1])
  }

  /** The number of models over all manufacturers, a manufacturer without `models` counting none. */
  function ModelCount(mds: seq<ManufacturerData>): nat
  {
    if mds == [] then 0 else ModelCount(mds[..|mds| - 1]) + |ModelsOf(mds[|mds| - 1])|
  }

  lemma {:induction false} RowsCount(mds: seq<ManufacturerData>)
    ensures |Rows(mds)| == ModelCount(mds)
  {
    if mds != [] {
      RowsCount(mds[..|mds| - 1]);
    }
  }

  function MakerOf(md: ManufacturerData): Manufacturer
  {
    Manufacturer(md.fullName, md.dirName)
  }

  function DirName(m: Manufacturer): string
  {
    m.dirName
  }

  function RowKey(row: Row): string
  {
    row.maker.dirName + "/" + row.model.id
  }

  /** The profile built for one row. */
  function RowProfile(amap: map<string, ProfileStats>, row: Row): PowerProfile
  {
    MapToBasePowerProfile(row.model, MakerOf(row.maker), GetUsageStats(Get(amap, RowKey(row))))
  }

  function RowProfileFn(amap: map<string, ProfileStats>): Row -> PowerProfile
  {
    (row: Row) => RowProfile(amap, row)
  }

  /** The profile list: one profile per row, in row order. */
  function Profiles(amap: map<string, ProfileStats>, rows: seq<Row>): seq<PowerProfile>
  {
    Map(rows, RowProfileFn(amap))
  }

  /** A profile's key: `manufacturerKey/modelId`. */
  function ProfileKey(p: PowerProfile): string
  {
    p.manufacturer.dirName + "/" + p.modelId
  }

  function AuthorName(a: Author): string
  {
    a.githubUsername
  }

  function AuthorOfProfile(p: PowerProfile): Author
  {
    p.author
  }

  /** The profile index: `set(key, profile)` for each profile in turn. */
  function ByKey(ps: seq<PowerProfile>): map<string, PowerProfile>
  {
    Index(ps, ProfileKey)
  }

  /** The authors table: `authors[username] ??= author` for each profile with a username. */
  function Authors(ps: seq<PowerProfile>): map<string, Author>
  {
    FirstIndex(Map(ps, AuthorOfProfile), AuthorName)
  }

  /** The manufacturers table: `manufacturers[dir_name] = {fullName, dirName}` for each manufacturer. */
  function Makers(mds: seq<ManufacturerData>): map<string, Manufacturer>
  {
    Index(Map(mds, MakerOf), DirName)
  }

  /** What `queryFn` resolves to. */
  function Library(library: LibraryJson, analyticsData: Option<seq<ProfileStats>>): LibraryData
  {
    if library.manufacturers.None? || |library.manufacturers.value| == 0 then
      LibraryData([], map[], 0, map[], map[])
    else
      var mds := library.manufacturers.value;
      var amap := Index(analyticsData.GetOr([]), StatKey);
      var profiles := Profiles(amap, Rows(mds));
      LibraryData(profiles, ByKey(profiles), |profiles|, Authors(profiles), Makers(mds))
  }

  // ---- the loops ----

  /** The nested loops of `queryFn`. */
  method QueryFn(library: LibraryJson, analyticsData: Option<seq<ProfileStats>>) returns (data: LibraryData)
    ensures data == Library(library, analyticsData)
  {
    if library.manufacturers.None? || |library.manufacturers.value| == 0 {
      return LibraryData([], map[], 0, map[], map[]);
    }
    var mds := library.manufacturers.value;
    var analyticsMap := CreateAnalyticsMap(analyticsData.GetOr([]));
    var powerProfiles: seq<PowerProfile> := [];
    var powerProfilesByKey: map<string, PowerProfile> := map[];
    var authors: map<string, Author> := map[];
    var manufacturers: map<string, Manufacturer> := map[];
    var i := 0;
    while i < |mds|
      invariant 0 <= i <= |mds|
      invariant powerProfiles == Profiles(analyticsMap, Rows(mds[..i]))
      invariant powerProfilesByKey == ByKey(powerProfiles)
      invariant authors == Authors(powerProfiles)
      invariant manufacturers == Makers(mds[..i])
    {
      var manufacturerData := mds[i];
      var manufacturerKey := manufacturerData.dirName;
      var manufacturer := Manufacturer(manufacturerData.fullName, manufacturerData.dirName);
      ManufacturerStep(mds, i);
      manufacturers := manufacturers[manufacturerKey := manufacturer];
      powerProfiles, powerProfilesByKey, authors :=
        AddModels(analyticsMap, manufacturerData, powerProfiles, powerProfilesByKey, authors);
      RowsStep(mds, i);
      MapConcat(Rows(mds[..i]), RowsOf(manufacturerData), RowProfileFn(analyticsMap));
      i := i + 1;
    }
    assert mds[..i] == mds;
    data := LibraryData(powerProfiles, powerProfilesByKey, |powerProfiles|, authors, manufacturers);
  }

  /**
   * The inner loop of `queryFn`: one profile per model of one manufacturer, appended to the
   * list and entered in the index and the authors table.
   */
  method AddModels(analyticsMap: map<string, ProfileStats>, manufacturerData: ManufacturerData,
                   powerProfiles0: seq<PowerProfile>, byKey0: map<string, PowerProfile>, authors0: map<string, Author>)
    returns (powerProfiles: seq<PowerProfile>, powerProfilesByKey: map<string, PowerProfile>, authors: map<string, Author>)
    requires byKey0 == ByKey(powerProfiles0) && authors0 == Authors(powerProfiles0)
    ensures powerProfiles == powerProfiles0 + Map(RowsOf(manufacturerData), RowProfileFn(analyticsMap))
    ensures powerProfilesByKey == ByKey(powerProfiles) && authors == Authors(powerProfiles)
  {
    var manufacturerKey := manufacturerData.dirName;
    var manufacturer := Manufacturer(manufacturerData.fullName, manufacturerData.dirName);
    var models := manufacturerData.models.GetOr([]);
    ghost var rows := RowsOf(manufacturerData);
    powerProfiles, powerProfilesByKey, authors := powerProfiles0, byKey0, authors0;
    assert rows[..0] == [];
    var j := 0;
    while j < |models|
      invariant 0 <= j <= |models|
      invariant powerProfiles == powerProfiles0 + Map(rows[..j], RowProfileFn(analyticsMap))
      invariant powerProfilesByKey == ByKey(powerProfiles)
      invariant authors == Authors(powerProfiles)
    {
      var modelData := models[j];
      var key := manufacturerKey + "/" + modelData.id;
      var stat := Get(analyticsMap, key);
      var usageStats := GetUsageStats(stat);
      var profile := MapToBasePowerProfile(modelData, manufacturer, usageStats);
      assert rows[j] == Row(manufacturerData, modelData);
      assert RowProfileFn(analyticsMap)(rows[j]) == profile;
      ModelStep(analyticsMap, powerProfiles0, rows, j, powerProfiles, profile);
      powerProfiles := powerProfiles + [profile];
      powerProfilesByKey := powerProfilesByKey[key := profile];
      if profile.author.githubUsername != "" && profile.author.githubUsername !in authors {
        authors := authors[profile.author.githubUsername := profile.author];
      }
      j := j + 1;
    }
    assert rows[..j] == rows;
  }

  /** The rows of one more manufacturer follow the rows of the ones before it. */
  lemma RowsStep(mds: seq<ManufacturerData>, i: nat)
    requires i < |mds|
    ensures Rows(mds[..i + 1]) == Rows(mds[..i]) + RowsOf(mds[i])
  {
    assert mds[..i + 1][..i] == mds[..i];
  }

  /** One turn of the inner loop: the profile list, the index and the authors table move on by one model. */
  lemma ModelStep(amap: map<string, ProfileStats>, ps0: seq<PowerProfile>, rows: seq<Row>, j: nat,
                  ps: seq<PowerProfile>, p: PowerProfile)
    requires j < |rows|
    requires ps == ps0 + Map(rows[..j], RowProfileFn(amap))
    requires p == RowProfileFn(amap)(rows[j])
    ensures ps + [p] == ps0 + Map(rows[..j + 1], RowProfileFn(amap))
    ensures ByKey(ps + [p]) == ByKey(ps)[ProfileKey(p) := p]
    ensures Authors(ps + [p]) == if p.author.githubUsername != "" && p.author.githubUsername !in Authors(ps)
      then Authors(ps)[p.author.githubUsername := p.author] else Authors(ps)
  {
    MapStep(rows, j, RowProfileFn(amap));
    ByKeyStep(ps, p);
    AuthorsStep(ps, p);
  }

  lemma ManufacturerStep(mds: seq<ManufacturerData>, i: nat)
    requires i < |mds|
    ensures Makers(mds[..i + 1]) == Makers(mds[..i])[mds[i].dirName := MakerOf(mds[i])]
  {
    var s := Map(mds[..i + 1], MakerOf);
    assert s[..|s| - 1] == Map(mds[..i], MakerOf);
  }

  lemma MapStep<T, U>(s: seq<T>, j: nat, f: T -> U)
    requires j < |s|
    ensures Map(s[..j + 1], f) == Map(s[..j], f) + [f(s[j])]
  {
    assert s[..j + 1] == s[..j] + [s[j]];
    MapConcat(s[..j], [s[j]], f);
  }

  /** Appending a profile sets the index under its key. */
  lemma ByKeyStep(ps: seq<PowerProfile>, p: PowerProfile)
    ensures ByKey(ps + [p]) == ByKey(ps)[ProfileKey(p) := p]
  {
    assert (ps + [p])[..|ps|] == ps;
  }

  /** Appending a profile updates the authors table by `??=` under its username. */
  lemma AuthorsStep(ps: seq<PowerProfile>, p: PowerProfile)
    ensures Authors(ps + [p]) == if p.author.githubUsername != "" && p.author.githubUsername !in Authors(ps)
      then Authors(ps)[p.author.githubUsername := p.author] else Authors(ps)
  {
    MapConcat(ps, [p], AuthorOfProfile);
    assert Map([p], AuthorOfProfile) == [p.author];
    FirstIndexSnoc(Map(ps, AuthorOfProfile), p.author, AuthorName);
  }

  // ---- what the assembly promises ----

  /** With no manufacturers everything is empty and the total is 0. */
  lemma EmptyLibrary(library: LibraryJson, analyticsData: Option<seq<ProfileStats>>)
    requires library.manufacturers.None? || library.manufacturers.value == []
    ensures Library(library, analyticsData) == LibraryData([], map[], 0, map[], map[])
  {
  }

  /**
   * One profile per model, in manufacturer-then-model order, each built from its model and
   * manufacturer; the total is the number of profiles, which is the number of models.
   */
  lemma ProfilesShape(library: LibraryJson, analyticsData: Option<seq<ProfileStats>>)
    requires library.manufacturers.Some?
    ensures var d := Library(library, analyticsData);
      var rows := Rows(library.manufacturers.value);
      && d.total == |d.powerProfiles| == ModelCount(library.manufacturers.value)
      && forall i :: 0 <= i < |d.powerProfiles| ==>
           && d.powerProfiles[i].modelId == rows[i].model.id
           && d.powerProfiles[i].manufacturer == Manufacturer(rows[i].maker.fullName, rows[i].maker.dirName)
  {
    RowsCount(library.manufacturers.value);
  }

  /**
   * Every profile is in the index under `dir_name/id`; each key holds the last profile with
   * that key, and the index has no other keys.
   */
  lemma ByKeyLastWins(library: LibraryJson, analyticsData: Option<seq<ProfileStats>>)
    ensures var d := Library(library, analyticsData);
      && (forall i :: 0 <= i < |d.powerProfiles| ==> ProfileKey(d.powerProfiles[i]) in d.powerProfilesByKey)
      && (forall k :: k in d.powerProfilesByKey ==>
            (exists i :: LastWith(d.powerProfiles, ProfileKey, k, i) && d.powerProfilesByKey[k] == d.powerProfiles[i]))
  {
    var d := Library(library, analyticsData);
    if library.manufacturers.Some? && |library.manufacturers.value| != 0 {
      IndexLastWins(d.powerProfiles, ProfileKey);
    }
  }

  /** The key a profile is indexed under is the key of the row it was built from. */
  lemma ProfileKeyOfRow(amap: map<string, ProfileStats>, row: Row)
    ensures ProfileKey(RowProfile(amap, row)) == RowKey(row)
  {
  }

  /**
   * A profile's usage figures come from the last analytics entry with its key, and are all 0
   * when there is none.
   */
  lemma UsageJoin(analyticsData: seq<ProfileStats>, row: Row)
    ensures var p := RowProfile(Index(analyticsData, StatKey), row);
      && ((forall i :: 0 <= i < |analyticsData| ==> StatKey(analyticsData[i]) != RowKey(row)) ==>
            p.usageStats == UsageStats(0, 0, 0.0))
      && (forall i :: LastWith(analyticsData, StatKey, RowKey(row), i) ==>
            p.usageStats == GetUsageStats(Some(analyticsData[i])))
  {
    IndexLastWins(analyticsData, StatKey);
    forall i | LastWith(analyticsData, StatKey, RowKey(row), i)
      ensures RowProfile(Index(analyticsData, StatKey), row).usageStats == GetUsageStats(Some(analyticsData[i]))
    {
      IndexAt(analyticsData, StatKey, i);
    }
  }

  /**
   * `authors` holds exactly the non-empty GitHub usernames of the profiles, each mapped to the
   * author of the first profile with that username.
   */
  lemma AuthorsFirstWins(ps: seq<PowerProfile>)
    ensures forall u :: u in Authors(ps) <==> (u != "" && exists i :: 0 <= i < |ps| && ps[i].author.githubUsername == u)
    ensures forall u :: u in Authors(ps) ==>
      (exists i :: 0 <= i < |ps| && Authors(ps)[u] == ps[i].author && ps[i].author.githubUsername == u
        && forall j :: 0 <= j < i ==> ps[j].author.githubUsername != u)
  {
    forall u ensures u in Authors(ps) <==> (u != "" && exists i :: 0 <= i < |ps| && ps[i].author.githubUsername == u) {
      AuthorsKey(ps, u);
    }
    forall u | u in Authors(ps)
      ensures exists i :: (0 <= i < |ps| && Authors(ps)[u] == ps[i].author && ps[i].author.githubUsername == u
        && forall j :: 0 <= j < i ==> ps[j].author.githubUsername != u)
    {
      AuthorsFirst(ps, u);
    }
  }

  /** The author names, position by position, are the profiles' usernames. */
  lemma AuthorNamesAt(ps: seq<PowerProfile>, i: nat)
    requires i < |ps|
    ensures AuthorName(Map(ps, AuthorOfProfile)[i]) == ps[i].author.githubUsername
    ensures Map(ps, AuthorOfProfile)[i] == ps[i].author
  {
  }

  lemma AuthorsKey(ps: seq<PowerProfile>, u: string)
    ensures u in Authors(ps) <==> (u != "" && exists i :: 0 <= i < |ps| && ps[i].author.githubUsername == u)
  {
    var s := Map(ps, AuthorOfProfile);
    FirstIndexFirstWins(s, AuthorName);
    if u != "" && exists i :: 0 <= i < |ps| && ps[i].author.githubUsername == u {
      var i :| 0 <= i < |ps| && ps[i].author.githubUsername == u;
      AuthorNamesAt(ps, i);
    }
    if u in Authors(ps) {
      var i :| 0 <= i < |s| && AuthorName(s[i]) == u;
      AuthorNamesAt(ps, i);
    }
  }

  lemma AuthorsFirst(ps: seq<PowerProfile>, u: string)
    requires u in Authors(ps)
    ensures exists i :: (0 <= i < |ps| && Authors(ps)[u] == ps[i].author && ps[i].author.githubUsername == u
      && forall j :: 0 <= j < i ==> ps[j].author.githubUsername != u)
  {
    var s := Map(ps, AuthorOfProfile);
    FirstIndexFirstWins(s, AuthorName);
    var i :| FirstWith(s, AuthorName, u, i) && Authors(ps)[u] == s[i];
    AuthorNamesAt(ps, i);
    forall j | 0 <= j < i ensures ps[j].author.githubUsername != u {
      AuthorNamesAt(ps, j);
    }
  }

  /**
   * `manufacturers` is keyed by `dir_name`: each key holds `{fullName, dirName}` of the last
   * manufacturer with that directory, and every manufacturer's directory is a key.
   */
  lemma ManufacturersKeyed(mds: seq<ManufacturerData>)
    ensures forall k :: k in Makers(mds) <==> exists i :: 0 <= i < |mds| && mds[i].dirName == k
    ensures forall k :: k in Makers(mds) ==> Makers(mds)[k].dirName == k
    ensures forall k :: k in Makers(mds) ==>
      (exists i :: 0 <= i < |mds| && mds[i].dirName == k && Makers(mds)[k].fullName == mds[i].fullName
        && forall j :: i < j < |mds| ==> mds[j].dirName != k)
  {
    var s := Map(mds, MakerOf);
    IndexLastWins(s, DirName);
    forall k ensures k in Makers(mds) <==> exists i :: 0 <= i < |mds| && mds[i].dirName == k {
      if k in Makers(mds) {
        var i :| 0 <= i < |s| && DirName(s[i]) == k;
        assert mds[i].dirName == k;
      }
      if exists i :: 0 <= i < |mds| && mds[i].dirName == k {
        var i :| 0 <= i < |mds| && mds[i].dirName == k;
        assert DirName(s[i]) == k;
      }
    }
    forall k | k in Makers(mds)
      ensures Makers(mds)[k].dirName == k
      ensures exists i :: (0 <= i < |mds| && mds[i].dirName == k && Makers(mds)[k].fullName == mds[i].fullName
        && forall j :: i < j < |mds| ==> mds[j].dirName != k)
    {
      var i :| LastWith(s, DirName, k, i) && Makers(mds)[k] == s[i];
      assert forall j :: i < j < |mds| ==> DirName(s[j]) == mds[j].dirName;
    }
  }
}
