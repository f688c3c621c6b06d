/**
 * The detail-page loader once its requests have resolved: checking the route parameters,
 * looking the profile up in the keyed index, picking plot images and sub-profile files out of
 * the download links, and overriding the measure description from the model file.
 */
module PowerProfileLoader {
  import opened Wrappers
  import opened Strings
  import opened Lists
  import opened ProfileMappers

  /** One entry of the download listing. */
  datatype DownloadLink = DownloadLink(url: string, path: string)

  datatype PlotLink = PlotLink(url: string, plotLabel: string)

  /** A sub-profile: its name and the file its raw JSON is fetched from. */
  datatype SubProfileLink = SubProfileLink(name: string, url: string)

  datatype Params = Params(manufacturer: Option<string>, model: Option<string>)

  /** The loader's result; the raw model JSON and the fetched sub-profile bodies are not kept. */
  datatype FullPowerProfile = FullPowerProfile(profile: PowerProfile, plots: seq<PlotLink>, subProfiles: seq<SubProfileLink>)

  const MissingParams := "Missing manufacturer or model in URL parameters."

  /** A route parameter that is present and not `""`. */
  predicate Given(p: Option<string>)
  {
    p.Some? && p.value != ""
  }

  /** `requireParams`: both parameters, or the error it throws. */
  function RequireParams(params: Params): (r: Result<(string, string)>)
    ensures r.Failure? <==> !Given(params.manufacturer) || !Given(params.model)
    ensures r.Failure? ==> r.error == MissingParams
    ensures r.Success? ==> r.value == (params.manufacturer.value, params.model.value)
  {
    if !Given(params.manufacturer) || !Given(params.model) then Failure(MissingParams)
    else Success((params.manufacturer.value, params.model.value))
  }

  /** `path.split(".")[0]` */
  function PlotLabel(path: string): string
  {
    Split(path, '.')[0]
  }

  /** `path.split("/")[0]` */
  function SubProfileName(path: string): string
  {
    Split(path, '/')[0]
  }

  /** The plot a link gives, if it is a `.png` image. */
  function PlotOf(l: DownloadLink): Option<PlotLink>
  {
    if EndsWith(l.url, ".png") then Some(PlotLink(l.url, PlotLabel(l.path))) else None
  }

  function PlotOfFn(): DownloadLink -> Option<PlotLink>
  {
    (l: DownloadLink) => PlotOf(l)
  }

  /** A sub-profile file: a `model.json` that is not the top-level `model.json`. */
  predicate IsSubProfile(l: DownloadLink)
  {
    EndsWith(l.url, "model.json") && l.path != "model.json"
  }

  function SubProfileOf(l: DownloadLink): Option<SubProfileLink>
  {
    if IsSubProfile(l) then Some(SubProfileLink(SubProfileName(l.path), l.url)) else None
  }

  function SubProfileOfFn(): DownloadLink -> Option<SubProfileLink>
  {
    (l: DownloadLink) => SubProfileOf(l)
  }

  /** `toPlots` */
  function ToPlots(links: seq<DownloadLink>): seq<PlotLink>
  {
    Choose(links, PlotOfFn())
  }

  /** The links `toSubProfiles` fetches, with the names it gives them. */
  function ToSubProfiles(links: seq<DownloadLink>): seq<SubProfileLink>
  {
    Choose(links, SubProfileOfFn())
  }

  /** `manufacturer/model`, the key of the profile index. */
  function ProfileIndexKey(manufacturer: string, model: string): string
  {
    manufacturer + "/" + model
  }

  /**
   * `powerProfileLoader` with its requests resolved: `byKey` is the library index,
   * `measureDescription` the model file's field and `links` the download listing.
   */
  function Load(params: Params, byKey: map<string, PowerProfile>, measureDescription: Option<string>,
                links: seq<DownloadLink>): Result<FullPowerProfile>
  {
    match RequireParams(params)
    case Failure(e) => Failure(e)
    case Success((manufacturer, model)) =>
      var key := ProfileIndexKey(manufacturer, model);
      if key !in byKey then Failure("Unknown profile " + key)
      else
        var profile := byKey[key].(measureDescription := measureDescription.GetOr(""));
        Success(FullPowerProfile(profile, ToPlots(links), ToSubProfiles(links)))
  }

  // ---- properties ----

  /**
   * `toPlots` keeps exactly the `.png` links: every such link gives a plot with its url, each
   * plot comes from one, and the filter works link by link so the order is kept.
   */
  lemma ToPlotsExactly(links: seq<DownloadLink>)
    ensures forall i :: 0 <= i < |links| && EndsWith(links[i].url, ".png") ==>
      PlotLink(links[i].url, PlotLabel(links[i].path)) in ToPlots(links)
    ensures forall p :: p in ToPlots(links) ==>
      exists i :: 0 <= i < |links| && EndsWith(links[i].url, ".png") && p == PlotLink(links[i].url, PlotLabel(links[i].path))
    ensures |ToPlots(links)| <= |links|
  {
    ChooseMembers(links, PlotOfFn());
  }

  /** Filtering is done link by link: the plots of a concatenation are the concatenated plots. */
  lemma ToPlotsOrder(a: seq<DownloadLink>, b: seq<DownloadLink>)
    ensures ToPlots(a + b) == ToPlots(a) + ToPlots(b)
    ensures ToSubProfiles(a + b) == ToSubProfiles(a) + ToSubProfiles(b)
  {
    ChooseConcat(a, b, PlotOfFn());
    ChooseConcat(a, b, SubProfileOfFn());
  }

  /** A label is the path up to its first `.`, or the whole path when it has none. */
  lemma PlotLabelPrefix(path: string)
    ensures StartsWith(path, PlotLabel(path))
    ensures '.' !in PlotLabel(path)
    ensures |PlotLabel(path)| == |path| || path[|PlotLabel(path)|] == '.'
  {
    SplitHead(path, '.');
  }

  /** A sub-profile's name is its path up to the first `/`. */
  lemma SubProfileNamePrefix(path: string)
    ensures StartsWith(path, SubProfileName(path))
    ensures '/' !in SubProfileName(path)
    ensures |SubProfileName(path)| == |path| || path[|SubProfileName(path)|] == '/'
  {
    SplitHead(path, '/');
  }

  /** The sub-profiles are exactly the nested `model.json` links, each named after its directory. */
  lemma ToSubProfilesExactly(links: seq<DownloadLink>)
    ensures forall i :: 0 <= i < |links| && IsSubProfile(links[i]) ==>
      SubProfileLink(SubProfileName(links[i].path), links[i].url) in ToSubProfiles(links)
    ensures forall s :: s in ToSubProfiles(links) ==>
      exists i :: 0 <= i < |links| && IsSubProfile(links[i]) && s == SubProfileLink(SubProfileName(links[i].path), links[i].url)
  {
    ChooseMembers(links, SubProfileOfFn());
  }

  /** The top-level `model.json` is never a sub-profile, whatever its url. */
  lemma TopModelNotSubProfile(url: string)
    ensures ToSubProfiles([DownloadLink(url, "model.json")]) == []
  {
  }

  /**
   * The loader fails with the parameter error first, then with `Unknown profile m/model` when
   * the key is not indexed; otherwise it returns the indexed profile with only its measure
   * description replaced (`''` when the model file has none).
   */
  lemma LoadOutcome(params: Params, byKey: map<string, PowerProfile>, measureDescription: Option<string>,
                    links: seq<DownloadLink>)
    ensures var r := Load(params, byKey, measureDescription, links);
      && (RequireParams(params).Failure? ==> r == Failure(MissingParams))
      && (RequireParams(params).Success? ==>
            var key := params.manufacturer.value + "/" + params.model.value;
            && (key !in byKey ==> r == Failure("Unknown profile " + key))
            && (key in byKey ==>
                  && r.Success?
                  && r.value.profile.measureDescription == (if measureDescription.Some? then measureDescription.value else "")
                  && r.value.profile.(measureDescription := byKey[key].measureDescription) == byKey[key]
                  && r.value.plots == ToPlots(links)
                  && r.value.subProfiles == ToSubProfiles(links)))
  {
  }
}
