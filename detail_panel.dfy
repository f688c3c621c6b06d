/**
 * The grid's detail panel once its requests have resolved: the plot images of the download
 * listing, each tagged with the color mode its file name names. Its property rows are filtered
 * and cut into columns by `PropertyList`.
 */
module DetailPanel {
  import opened Wrappers
  import opened Strings
  import opened Lists
  import opened PowerProfileLoader
  import opened JsValues
  import opened ProfileMappers
  import opened PropertyList

  /**
   * The color modes a plot file can be named after. Their text values are the Home Assistant
   * color-mode names; the enum's own file is not part of this model.
   */
  datatype ColorMode = HS | COLOR_TEMP | BRIGHTNESS

  function ColorModeValue(m: ColorMode): string
  {
    match m
    case HS => "hs"
    case COLOR_TEMP => "color_temp"
    case BRIGHTNESS => "brightness"
  }

  /** A plot of the panel: the image and the color mode it was measured in. */
  datatype ColorPlot = ColorPlot(url: string, colorMode: ColorMode)

  /** `mapFileNameToColorMode`: the color mode the name before the first `.` spells, or the error it throws. */
  function MapFileNameToColorMode(fileName: string): (r: Result<ColorMode>)
    ensures var baseName := PlotLabel(fileName);
      && (r.Success? <==> baseName == "hs" || baseName == "color_temp" || baseName == "brightness")
      && (r.Success? ==> ColorModeValue(r.value) == baseName)
      && (r.Failure? ==> r.error == "Unknown color mode: " + baseName)
  {
    var baseName := Split(fileName, '.')[0];
    if baseName == "hs" then Success(HS)
    else if baseName == "color_temp" then Success(COLOR_TEMP)
    else if baseName == "brightness" then Success(BRIGHTNESS)
    else Failure("Unknown color mode: " + baseName)
  }

  /**
   * The panel's plots: the `.png` links, each mapped to its color mode. The first `.png` link
   * whose name is no color mode makes the whole request fail with its error.
   */
  function DetailPlots(links: seq<DownloadLink>): Result<seq<ColorPlot>>
  {
    if links == [] then Success([])
    else if !EndsWith(links[0].url, ".png") then DetailPlots(links[1..])
    else
      match MapFileNameToColorMode(links[0].path)
      case Failure(e) => Failure(e)
      case Success(m) =>
        match DetailPlots(links[1..])
        case Failure(e) => Failure(e)
        case Success(rest) => Success([ColorPlot(links[0].url, m)] + rest)
  }

  /** Every `.png` link's file name is a color mode. */
  ghost predicate AllPlotsNamed(links: seq<DownloadLink>)
  {
    forall i :: 0 <= i < |links| && EndsWith(links[i].url, ".png") ==> MapFileNameToColorMode(links[i].path).Success?
  }

  /**
   * The fields the panel reads from the fetched profile document. The document is untyped JSON,
   * so each field may be missing (`Undefined`) or of any kind.
   */
  datatype FetchedDetails = FetchedDetails(
    createdAt: JsValue,
    author: JsValue,
    measureDevice: JsValue,
    measureMethod: JsValue,
    measureDescription: JsValue,
    standbyPower: JsValue)

  /** `fullProfile?.<field>`: `undefined` while there is no fetched profile. */
  function Fetched(fullProfile: Option<FetchedDetails>, field: FetchedDetails -> JsValue): JsValue
  {
    if fullProfile.Some? then field(fullProfile.value) else Undefined
  }

  /**
   * The rows of the panel, in panel order: the grid row's own fields and the fetched ones. The
   * update date is a display value that comes in as it is.
   */
  function DetailProperties(profile: PowerProfile, fullProfile: Option<FetchedDetails>, updatedAt: JsValue): (r: seq<Property>)
    ensures |r| == 13
  {
    [ Property("Manufacturer", Obj(map["fullName" := Str(profile.manufacturer.fullName),
                                       "dirName" := Str(profile.manufacturer.dirName)])),
      Property("Model ID", Str(profile.modelId)),
      Property("Device type", Str(profile.deviceType)),
      Property("Name", Str(profile.name)),
      Property("Created", Fetched(fullProfile, (d: FetchedDetails) => d.createdAt)),
      Property("Updated", updatedAt),
      Property("Author", Fetched(fullProfile, (d: FetchedDetails) => d.author)),
      Property("Color modes", Str(ColorModesText(profile.colorModes))),
      Property("Aliases", Str(profile.aliases)),
      Property("Measure device", Fetched(fullProfile, (d: FetchedDetails) => d.measureDevice)),
      Property("Measure method", Fetched(fullProfile, (d: FetchedDetails) => d.measureMethod)),
      Property("Measure description", Fetched(fullProfile, (d: FetchedDetails) => d.measureDescription)),
      Property("Standby power", Fetched(fullProfile, (d: FetchedDetails) => d.standbyPower)) ]
  }

  /** `filteredProperties` and `chunkedProperties` of the panel. */
  method DetailColumns(profile: PowerProfile, fullProfile: Option<FetchedDetails>, updatedAt: JsValue)
    returns (columns: seq<seq<Property>>)
    ensures columns == Chunks(FilterProperties(DetailProperties(profile, fullProfile, updatedAt)))
  {
    var filtered := FilterProperties(DetailProperties(profile, fullProfile, updatedAt));
    columns := ChunkProperties(filtered);
  }

  // ---- properties ----

  /** The rows the panel takes from the fetched profile. */
  predicate FetchedRow(i: nat)
  {
    i == 4 || i == 6 || 9 <= i <= 12
  }

  /**
   * Without a fetched profile every fetched row is dropped; the manufacturer row is always
   * shown.
   */
  lemma DetailRowsWithoutFetch(profile: PowerProfile, updatedAt: JsValue)
    ensures var props := DetailProperties(profile, None, updatedAt);
      forall i :: 0 <= i < 13 && FetchedRow(i) ==> props[i] !in FilterProperties(props)
    ensures var props := DetailProperties(profile, None, updatedAt);
      props[0] in FilterProperties(props)
  {
    var props := DetailProperties(profile, None, updatedAt);
    var filtered := FilterProperties(props);
    FilterKeepsRow(props, 0);
    forall i | 0 <= i < 13 && FetchedRow(i) ensures props[i] !in filtered {
      FilterKeepsRow(props, i);
    }
  }

  /** The rows of the grid row's own fields do not depend on the fetched profile. */
  lemma DetailOwnRows(profile: PowerProfile, updatedAt: JsValue, d: FetchedDetails)
    ensures forall i :: 0 <= i < 13 && !FetchedRow(i) ==>
      DetailProperties(profile, None, updatedAt)[i] == DetailProperties(profile, Some(d), updatedAt)[i]
  {
  }

  /** The panel always has a column, and never more than four. */
  lemma DetailColumnsShape(profile: PowerProfile, fullProfile: Option<FetchedDetails>, updatedAt: JsValue)
    ensures var filtered := FilterProperties(DetailProperties(profile, fullProfile, updatedAt));
      var columns := Chunks(filtered);
      && Flatten(columns) == filtered
      && (forall i :: 0 <= i < |columns| - 1 ==> |columns[i]| == 4)
      && 1 <= |columns| <= 4
  {
    var props := DetailProperties(profile, fullProfile, updatedAt);
    var filtered := FilterProperties(props);
    ChunksShape(filtered);
    FilterKeepsRow(props, 0);
  }


  /** A file named after a color mode, with any extension, maps back to that mode. */
  lemma ColorModeRoundTrip(m: ColorMode, extension: string)
    ensures MapFileNameToColorMode(ColorModeValue(m) + "." + extension) == Success(m)
    ensures MapFileNameToColorMode(ColorModeValue(m)) == Success(m)
  {
    var v := ColorModeValue(m);
    assert '.' !in v;
    SplitAfterFirst(v, extension, '.');
    assert v + "." + extension == v + ['.'] + extension;
    SplitNoSeparator(v, '.');
  }

  /**
   * The panel fails exactly when some `.png` link is not named after a color mode; otherwise
   * its plots are the loader's plots one for one, each with the color mode its label names.
   */
  lemma {:induction false} DetailPlotsMatchLoader(links: seq<DownloadLink>)
    ensures DetailPlots(links).Success? <==> AllPlotsNamed(links)
    ensures DetailPlots(links).Success? ==>
      var plots := DetailPlots(links).value;
      && |plots| == |ToPlots(links)|
      && forall i :: 0 <= i < |plots| ==>
           plots[i].url == ToPlots(links)[i].url && ColorModeValue(plots[i].colorMode) == ToPlots(links)[i].plotLabel
  {
    if links != [] {
      var rest := links[1..];
      DetailPlotsMatchLoader(rest);
      ChooseConcat([links[0]], rest, PlotOfFn());
      assert [links[0]] + rest == links;
      assert AllPlotsNamed(links) <==>
        (EndsWith(links[0].url, ".png") ==> MapFileNameToColorMode(links[0].path).Success?) && AllPlotsNamed(rest) by {
        if AllPlotsNamed(links) {
          forall i | 0 <= i < |rest| && EndsWith(rest[i].url, ".png") ensures MapFileNameToColorMode(rest[i].path).Success? {
            assert rest[i] == links[i + 1];
          }
        }
        if (EndsWith(links[0].url, ".png") ==> MapFileNameToColorMode(links[0].path).Success?) && AllPlotsNamed(rest) {
          forall i | 0 <= i < |links| && EndsWith(links[i].url, ".png") ensures MapFileNameToColorMode(links[i].path).Success? {
            if i > 0 {
              assert links[i] == rest[i - 1];
            }
          }
        }
      }
    }
  }
}
