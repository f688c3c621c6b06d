/**
 * The profile page: the property rows it lists for a loaded profile, their columns, and
 * whether the graphs tab is offered.
 */
module ProfilePage {
  import opened Wrappers
  import opened Strings
  import opened JsValues
  import opened ProfileMappers
  import opened PowerProfileLoader
  import opened PropertyList

  /** The author record as the object the row holds; an absent email stays `undefined`. */
  function AuthorValue(a: Author): JsValue
  {
    Obj(map["name" := Str(a.name),
            "email" := (if a.email.Some? then Str(a.email.value) else Undefined),
            "githubUsername" := Str(a.githubUsername)])
  }

  /** A number that may be missing, shown as `missing` when it is. */
  function OptionalNumber(n: Option<int>, missing: JsValue): JsValue
  {
    if n.Some? then Num(n.value) else missing
  }

  /**
   * The rows of the page, in page order. The creation and update dates are display values
   * that come in as they are.
   */
  function ProfileProperties(fp: FullPowerProfile, createdAt: JsValue, updatedAt: JsValue): (r: seq<Property>)
    ensures |r| == 17
  {
    var p := fp.profile;
    [ Property("Manufacturer", Str(p.manufacturer.fullName)),
      Property("Model ID", Str(p.modelId)),
      Property("Device type", Str(p.deviceType)),
      Property("Name", Str(p.name)),
      Property("Description", Str(p.description)),
      Property("Created", createdAt),
      Property("Updated", updatedAt),
      Property("Author", AuthorValue(p.author)),
      Property("Calculation strategy", Str(p.calculationStrategy)),
      Property("Color modes", Str(ColorModesText(p.colorModes))),
      Property("Aliases", Str(p.aliases)),
      Property("Measure device", Str(p.measureDevice)),
      Property("Measure method", Str(p.measureMethod)),
      Property("Measure description", Str(p.measureDescription)),
      // `maxPower` is `null` when the mapper found no positive value
      Property("Max power", OptionalNumber(p.maxPower, Null)),
      Property("Standby power", Num(p.standbyPower)),
      Property("Standby power on", OptionalNumber(p.standbyPowerOn, Undefined)) ]
  }

  /** `filteredProperties` and `chunkedProperties` of the page. */
  method ProfileColumns(fp: FullPowerProfile, createdAt: JsValue, updatedAt: JsValue) returns (columns: seq<seq<Property>>)
    ensures columns == Chunks(FilterProperties(ProfileProperties(fp, createdAt, updatedAt)))
  {
    var filtered := FilterProperties(ProfileProperties(fp, createdAt, updatedAt));
    columns := ChunkProperties(filtered);
  }

  /** `hasPlots` */
  function HasPlots(fp: FullPowerProfile): bool
  {
    |fp.plots| > 0
  }

  // ---- properties ----

  /**
   * Which of the optional rows appear: the author and the standby power always do (a power of
   * 0 included), the maximum power and the standby-on power exactly when they are set, and the
   * color modes unless there are none.
   */
  lemma ProfileRowsShown(fp: FullPowerProfile, createdAt: JsValue, updatedAt: JsValue)
    ensures var props := ProfileProperties(fp, createdAt, updatedAt);
      var filtered := FilterProperties(props);
      && props[7].name == "Author" && props[7] in filtered
      && props[15].name == "Standby power" && props[15] in filtered
      && props[14].name == "Max power" && (props[14] in filtered <==> fp.profile.maxPower.Some?)
      && props[16].name == "Standby power on" && (props[16] in filtered <==> fp.profile.standbyPowerOn.Some?)
      && props[9].name == "Color modes"
      && (props[9] in filtered <==> fp.profile.colorModes != [] && fp.profile.colorModes != [""])
  {
    var props := ProfileProperties(fp, createdAt, updatedAt);
    FilterKeepsRow(props, 7);
    FilterKeepsRow(props, 9);
    FilterKeepsRow(props, 14);
    FilterKeepsRow(props, 15);
    FilterKeepsRow(props, 16);
    ColorModesTextEmpty(fp.profile.colorModes);
  }

  /** Every column but the last holds four rows; there is always a column and never more than five. */
  lemma ProfileColumnsShape(fp: FullPowerProfile, createdAt: JsValue, updatedAt: JsValue)
    ensures var filtered := FilterProperties(ProfileProperties(fp, createdAt, updatedAt));
      var columns := Chunks(filtered);
      && Flatten(columns) == filtered
      && (forall i :: 0 <= i < |columns| - 1 ==> |columns[i]| == 4)
      && 1 <= |columns| <= 5
  {
    var props := ProfileProperties(fp, createdAt, updatedAt);
    var filtered := FilterProperties(props);
    ChunksShape(filtered);
    // the author row is always there
    FilterKeepsRow(props, 7);
    assert |filtered| <= |props|;
  }

  /**
   * A loaded profile offers the graphs tab exactly when one of its download links is a `.png`
   * image.
   */
  lemma HasPlotsIffImage(params: Params, byKey: map<string, PowerProfile>, measureDescription: Option<string>,
                         links: seq<DownloadLink>)
    requires Load(params, byKey, measureDescription, links).Success?
    ensures HasPlots(Load(params, byKey, measureDescription, links).value)
      <==> exists i :: 0 <= i < |links| && EndsWith(links[i].url, ".png")
  {
    LoadOutcome(params, byKey, measureDescription, links);
    ToPlotsExactly(links);
    var plots := ToPlots(links);
    if exists i :: 0 <= i < |links| && EndsWith(links[i].url, ".png") {
      var i :| 0 <= i < |links| && EndsWith(links[i].url, ".png");
      assert PlotLink(links[i].url, PlotLabel(links[i].path)) in plots;
    }
    if |plots| > 0 {
      assert plots[0] in plots;
    }
  }
}
