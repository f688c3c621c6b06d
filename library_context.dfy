/**
 * The library context provider: the older flattening of the library listing into profile
 * records, offered to the components together with the loading flag, an error text and the
 * total.
 */
module LibraryContext {
  import opened Wrappers
  import opened Strings
  import opened Lists
  import opened LibraryApi
  import opened ProfileMappers
  import opened KeyedIndex
  import opened LibraryQuery

  /**
   * The record the provider builds per model. Unlike `mapToBasePowerProfile` it keeps
   * `aliases` and `author` undefined when the model lacks them, copies `maxPower` as it is and
   * has no usage statistics.
   */
  datatype ContextProfile = ContextProfile(
    manufacturer: Manufacturer,
    modelId: string,
    name: string,
    aliases: Option<string>,
    author: Option<string>,
    deviceType: string,
    colorModes: seq<string>,
    updatedAt: string,
    createdAt: string,
    description: string,
    measureDevice: string,
    measureMethod: string,
    measureDescription: string,
    calculationStrategy: string,
    maxPower: Option<int>,
    standbyPower: int,
    standbyPowerOn: Option<int>)

  /** What the provider hands to its consumers. */
  datatype ContextValue = ContextValue(powerProfiles: seq<ContextProfile>, loading: bool, error: Option<string>, total: nat)

  const FetchFailed := "Failed to fetch library data"

  /** Reading `models.map` on a manufacturer without `models` throws. */
  const ModelsMissing := "Cannot read properties of undefined (reading 'map')"

  /** `aliases?.join("|")`: undefined stays undefined. */
  function JoinedAliasesOpt(aliases: Option<seq<string>>): (r: Option<string>)
    ensures r.Some? <==> aliases.Some?
    ensures aliases.Some? ==> r.value == Join(aliases.value, "|")
  {
    match aliases
    case None => None
    case Some(a) => Some(Join(a, "|"))
  }

  /** The record for one model of one manufacturer. */
  function ContextRow(row: Row): ContextProfile
  {
    var model := row.model;
    ContextProfile(
      Manufacturer(row.maker.fullName, row.maker.dirName),
      model.id,
      model.name,
      JoinedAliasesOpt(model.aliases),
      model.author,
      model.deviceType,
      model.colorModes.GetOr([]),
      model.updatedAt,
      model.createdAt,
      model.description,
      model.measureDevice,
      model.measureMethod,
      model.measureDescription,
      model.calculationStrategy,
      model.maxPower,
      model.standbyPower,
      model.standbyPowerOn)
  }

  function ContextRowFn(): Row -> ContextProfile
  {
    (row: Row) => ContextRow(row)
  }

  /** `manufacturers.flatMap(m => m.models.map(...))`, failing on a manufacturer without `models`. */
  function FlatProfiles(mds: seq<ManufacturerData>): Result<seq<ContextProfile>>
  {
    if mds == [] then Success([])
    else
      var md := mds[|mds| - 1];
      match FlatProfiles(mds[..|mds| - 1])
      case Failure(e) => Failure(e)
      case Success(front) =>
        if md.models.None? then Failure(ModelsMissing)
        else Success(front + Map(RowsOf(md), ContextRowFn()))
  }

  /** Every manufacturer carries a `models` array. */
  ghost predicate AllHaveModels(mds: seq<ManufacturerData>)
  {
    forall i :: 0 <= i < |mds| ==> mds[i].models.Some?
  }

  /** The provider's value; `data` is absent while the query has not resolved. */
  function Provide(data: Option<LibraryJson>, isLoading: bool, failed: bool): Result<ContextValue>
  {
    var mds := if data.Some? then data.value.manufacturers.GetOr([]) else [];
    match FlatProfiles(mds)
    case Failure(e) => Failure(e)
    case Success(profiles) =>
      Success(ContextValue(profiles, isLoading, if failed then Some(FetchFailed) else None, |profiles|))
  }

  /**
   * The flattening succeeds exactly when every manufacturer has `models`, and then it is one
   * record per model in manufacturer-then-model order.
   */
  lemma {:induction false} FlatProfilesRows(mds: seq<ManufacturerData>)
    ensures FlatProfiles(mds).Success? <==> AllHaveModels(mds)
    ensures FlatProfiles(mds).Success? ==> FlatProfiles(mds).value == Map(Rows(mds), ContextRowFn())
  {
    if mds != [] {
      var front := mds[..|mds| - 1];
      FlatProfilesRows(front);
      assert AllHaveModels(mds) <==> AllHaveModels(front) && mds[|mds| - 1].models.Some? by {
        if AllHaveModels(front) && mds[|mds| - 1].models.Some? {
          forall i | 0 <= i < |mds| ensures mds[i].models.Some? {
            if i < |mds| - 1 {
              assert mds[i] == front[i];
            }
          }
        }
        if AllHaveModels(mds) {
          forall i | 0 <= i < |front| ensures front[i].models.Some? {
            assert front[i] == mds[i];
          }
        }
      }
      MapConcat(Rows(front), RowsOf(mds[|mds| - 1]), ContextRowFn());
    }
  }

  /**
   * When the provider has a value, `total` is the number of profiles, which is the number of
   * models; the error text is the fixed message exactly when the query failed.
   */
  lemma ProvideShape(data: Option<LibraryJson>, isLoading: bool, failed: bool)
    ensures var mds := if data.Some? then data.value.manufacturers.GetOr([]) else [];
      var v := Provide(data, isLoading, failed);
      && (v.Success? <==> AllHaveModels(mds))
      && (v.Success? ==>
            && v.value.total == |v.value.powerProfiles| == ModelCount(mds)
            && v.value.loading == isLoading
            && (v.value.error == Some(FetchFailed) <==> failed)
            && (v.value.error.None? <==> !failed))
  {
    var mds := if data.Some? then data.value.manufacturers.GetOr([]) else [];
    FlatProfilesRows(mds);
    RowsCount(mds);
  }

  /** A listing that has not arrived, or has no manufacturers, gives no profiles and a total of 0. */
  lemma ProvideEmpty(data: Option<LibraryJson>, isLoading: bool, failed: bool)
    requires data.None? || data.value.manufacturers.None? || data.value.manufacturers.value == []
    ensures Provide(data, isLoading, failed).Success?
    ensures Provide(data, isLoading, failed).value.powerProfiles == []
    ensures Provide(data, isLoading, failed).value.total == 0
  {
  }

  /**
   * The record at each position comes from the model at that position: the aliases are joined
   * with `|` or stay undefined, the color modes default to `[]`, and the other fields are copied.
   */
  lemma ProvideProfileAt(data: LibraryJson, isLoading: bool, failed: bool, i: nat)
    requires Provide(Some(data), isLoading, failed).Success?
    requires i < |Provide(Some(data), isLoading, failed).value.powerProfiles|
    ensures i < |Rows(data.manufacturers.GetOr([]))|
    ensures var p := Provide(Some(data), isLoading, failed).value.powerProfiles[i];
      var row := Rows(data.manufacturers.GetOr([]))[i];
      && p.manufacturer == Manufacturer(row.maker.fullName, row.maker.dirName)
      && p.modelId == row.model.id
      && p.aliases == (if row.model.aliases.Some? then Some(Join(row.model.aliases.value, "|")) else None)
      && p.author == row.model.author
      && p.colorModes == (if row.model.colorModes.Some? then row.model.colorModes.value else [])
      && p.maxPower == row.model.maxPower
      && p.standbyPower == row.model.standbyPower
  {
    FlatProfilesRows(data.manufacturers.GetOr([]));
  }

  /**
   * The provider and the library query list the same models in the same order: when both have
   * profiles, positions agree on model id and manufacturer.
   */
  lemma AgreesWithQuery(data: LibraryJson, analyticsData: Option<seq<ProfileStats>>, isLoading: bool, failed: bool)
    requires Provide(Some(data), isLoading, failed).Success?
    ensures var ctx := Provide(Some(data), isLoading, failed).value.powerProfiles;
      var q := Library(data, analyticsData).powerProfiles;
      && |ctx| == |q|
      && forall i :: 0 <= i < |ctx| ==> ctx[i].modelId == q[i].modelId && ctx[i].manufacturer == q[i].manufacturer
  {
    var mds := data.manufacturers.GetOr([]);
    FlatProfilesRows(mds);
    var ctx := Provide(Some(data), isLoading, failed).value.powerProfiles;
    var q := Library(data, analyticsData).powerProfiles;
    if data.manufacturers.None? || |mds| == 0 {
      assert Rows(mds) == [];
    } else {
      var amap := Index(analyticsData.GetOr([]), StatKey);
      assert q == Map(Rows(mds), RowProfileFn(amap));
      forall i | 0 <= i < |ctx| ensures ctx[i].modelId == q[i].modelId && ctx[i].manufacturer == q[i].manufacturer {
        RowAgrees(amap, Rows(mds)[i]);
      }
    }
  }

  /** One model gives the same id and manufacturer in both records. */
  lemma RowAgrees(amap: map<string, ProfileStats>, row: Row)
    ensures ContextRow(row).modelId == RowProfile(amap, row).modelId
    ensures ContextRow(row).manufacturer == RowProfile(amap, row).manufacturer
  {
    MapToBasePowerProfileFields(row.model, MakerOf(row.maker), GetUsageStats(Get(amap, RowKey(row))));
  }
}
