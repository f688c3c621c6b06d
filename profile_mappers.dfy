/**
 * `mapToBasePowerProfile`: one library model, its manufacturer and its usage statistics
 * become the power-profile record the grid and the statistics views display.
 */
module ProfileMappers {
  import opened Wrappers
  import opened Strings
  import opened LibraryApi

  datatype Manufacturer = Manufacturer(fullName: string, dirName: string)

  datatype Author = Author(name: string, email: Option<string>, githubUsername: string)

  datatype UsageStats = UsageStats(installationCount: int, deviceCount: int, percentage: real)

  /** The profile record; `None` in `maxPower` and `minVersion` stands for `null`. */
  datatype PowerProfile = PowerProfile(
    manufacturer: Manufacturer,
    modelId: string,
    name: string,
    aliases: string,
    deviceType: string,
    colorModes: seq<string>,
    description: string,
    measureDevice: string,
    measureMethod: string,
    measureDescription: string,
    calculationStrategy: string,
    maxPower: Option<int>,
    standbyPower: int,
    standbyPowerOn: Option<int>,
    author: Author,
    subProfileCount: int,
    minVersion: Option<string>,
    compatibleIntegrations: seq<string>,
    usageStats: UsageStats)

  /** `aliases?.join("|") || ""` */
  function JoinedAliases(aliases: Option<seq<string>>): (r: string)
    ensures aliases.None? ==> r == ""
    ensures aliases.Some? ==> r == Join(aliases.value, "|")
  {
    match aliases
    case None => ""
    case Some(a) => Join(a, "|")
  }

  /** The author block, each missing part defaulted: name and username to `''`, the email passed through. */
  function AuthorOf(info: Option<AuthorInfo>): (a: Author)
    ensures a.name == if info.Some? then info.value.name.GetOr("") else ""
    ensures a.githubUsername == if info.Some? then info.value.github.GetOr("") else ""
    ensures a.email == if info.Some? then info.value.email else None
  {
    match info
    case None => Author("", None, "")
    case Some(i) => Author(i.name.GetOr(""), i.email, i.github.GetOr(""))
  }

  function MapToBasePowerProfile(model: LibraryModel, manufacturer: Manufacturer, usageStats: UsageStats): PowerProfile
  {
    PowerProfile(
      manufacturer,
      model.id,
      model.name,
      JoinedAliases(model.aliases),
      model.deviceType,
      model.colorModes.GetOr([]),
      model.description,
      model.measureDevice,
      model.measureMethod,
      model.measureDescription,
      model.calculationStrategy,
      if model.maxPower.Some? && model.maxPower.value > 0 then model.maxPower else None,
      model.standbyPower,
      model.standbyPowerOn,
      AuthorOf(model.authorInfo),
      // `sub_profile_count || 0`: a missing count and a count of 0 both give 0
      model.subProfileCount.GetOr(0),
      if model.minVersion.Some? && model.minVersion.value != "" then model.minVersion else None,
      model.compatibleIntegrations.GetOr([]),
      usageStats)
  }

  /**
   * The field defaults of the mapping: scalar fields and the manufacturer and usage figures are
   * copied, the aliases are joined with `|` (`""` when missing), `maxPower` is kept only when
   * defined and positive, the author's name and username default to `''` and the email passes
   * through, and the count, version and lists get `0`, `null` and `[]`.
   */
  lemma MapToBasePowerProfileFields(model: LibraryModel, manufacturer: Manufacturer, usageStats: UsageStats)
    ensures var p := MapToBasePowerProfile(model, manufacturer, usageStats);
      (p.manufacturer == manufacturer && p.usageStats == usageStats)
      && (p.modelId == model.id && p.name == model.name && p.deviceType == model.deviceType)
      && (p.description == model.description && p.measureDevice == model.measureDevice)
      && (p.measureMethod == model.measureMethod && p.measureDescription == model.measureDescription)
      && (p.calculationStrategy == model.calculationStrategy)
      && (p.standbyPower == model.standbyPower && p.standbyPowerOn == model.standbyPowerOn)
      && (p.aliases == JoinedAliases(model.aliases))
      && (p.colorModes == model.colorModes.GetOr([]))
      && (p.maxPower.Some? <==> model.maxPower.Some? && model.maxPower.value > 0)
      && (p.maxPower.Some? ==> p.maxPower == model.maxPower)
      && (p.author == AuthorOf(model.authorInfo))
      && (p.subProfileCount == model.subProfileCount.GetOr(0))
      && (p.minVersion.None? <==> model.minVersion.None? || model.minVersion.value == "")
      && (p.minVersion.Some? ==> p.minVersion == model.minVersion)
      && (p.compatibleIntegrations == model.compatibleIntegrations.GetOr([]))
  {
  }

  /**
   * Splitting the joined aliases on `|` gives the model's aliases back, whenever there is at
   * least one alias and none contains `|`: the chips show exactly what the library lists.
   */
  lemma AliasesSplitBack(model: LibraryModel, manufacturer: Manufacturer, usageStats: UsageStats)
    requires model.aliases.Some? && |model.aliases.value| >= 1
    requires forall i :: 0 <= i < |model.aliases.value| ==> '|' !in model.aliases.value[i]
    ensures Split(MapToBasePowerProfile(model, manufacturer, usageStats).aliases, '|') == model.aliases.value
  {
    SplitJoin(model.aliases.value, '|');
  }

  /** A model without aliases, or with an empty list of them, gets the empty alias text. */
  lemma NoAliasesEmpty(model: LibraryModel, manufacturer: Manufacturer, usageStats: UsageStats)
    requires model.aliases.None? || model.aliases.value == []
    ensures MapToBasePowerProfile(model, manufacturer, usageStats).aliases == ""
  {
  }
}
