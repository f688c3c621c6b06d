/**
 * The author page: the profiles contributed by one GitHub user, grouped by device type, and
 * the contribution count line.
 */
module AuthorPage {
  import opened Wrappers
  import opened Strings
  import opened Grouping
  import opened ProfileMappers
  import opened Sorting

  function GithubOf(p: PowerProfile): string
  {
    p.author.githubUsername
  }

  function GithubFn(): PowerProfile -> string
  {
    (p: PowerProfile) => GithubOf(p)
  }

  function DeviceTypeOf(p: PowerProfile): string
  {
    p.deviceType
  }

  function DeviceTypeFn(): PowerProfile -> string
  {
    (p: PowerProfile) => DeviceTypeOf(p)
  }

  /** `authorProfiles`: nothing without a route name, else the profiles with that username. */
  function AuthorProfiles(powerProfiles: seq<PowerProfile>, authorName: Option<string>): seq<PowerProfile>
  {
    if authorName.None? || authorName.value == "" then []
    else WithKey(powerProfiles, GithubFn(), authorName.value)
  }

  /** `profilesByDeviceType`: the loop that pushes each author profile into its device type's array. */
  method ProfilesByDeviceType(authorProfiles: seq<PowerProfile>) returns (grouped: map<string, seq<PowerProfile>>)
    ensures grouped.Keys == KeysOf(authorProfiles, DeviceTypeFn())
    ensures forall k :: k in grouped ==> grouped[k] == WithKey(authorProfiles, DeviceTypeFn(), k)
  {
    grouped := GroupBy(authorProfiles, DeviceTypeFn());
  }

  /**
   * The sections of the page, as `Object.entries` lists the grouping: its device types in the
   * order each first occurs among the author's profiles, every one of them once.
   */
  lemma DeviceTypeSections(authorProfiles: seq<PowerProfile>, grouped: map<string, seq<PowerProfile>>)
    requires grouped.Keys == KeysOf(authorProfiles, DeviceTypeFn())
    ensures forall k :: k in KeyOrder(authorProfiles, DeviceTypeFn()) <==> k in grouped
    ensures DistinctKeys(KeyOrder(authorProfiles, DeviceTypeFn()), SelfKey())
    ensures authorProfiles != [] ==> KeyOrder(authorProfiles, DeviceTypeFn())[0] == authorProfiles[0].deviceType
  {
    KeyOrderKeys(authorProfiles, DeviceTypeFn());
    if authorProfiles != [] {
      KeyOrderHead(authorProfiles, DeviceTypeFn());
    }
  }

  /** The count line under the header: `N contribution` with an `s` unless `N` is 1. */
  function ContributionText(count: nat): (r: string)
  {
    NatToString(count) + " contribution" + (if count != 1 then "s" else "")
  }

  /** The header name: the author record's name when it has one, else the route name. */
  function DisplayName(authors: map<string, Author>, authorName: string): (r: string)
    ensures r == authorName || (authorName in authors && r == authors[authorName].name)
    ensures authorName in authors && authors[authorName].name != "" ==> r == authors[authorName].name
    ensures authorName != "" ==> r != ""
  {
    if authorName in authors && authors[authorName].name != "" then authors[authorName].name else authorName
  }

  // ---- properties ----

  /**
   * The author's profiles are the profiles whose username is the route name, in their
   * original order; there are none without a name.
   */
  lemma AuthorProfilesExactly(powerProfiles: seq<PowerProfile>, authorName: Option<string>)
    ensures authorName.None? || authorName.value == "" ==> AuthorProfiles(powerProfiles, authorName) == []
    ensures authorName.Some? && authorName.value != "" ==>
      forall p :: p in AuthorProfiles(powerProfiles, authorName) <==> p in powerProfiles && p.author.githubUsername == authorName.value
    ensures |AuthorProfiles(powerProfiles, authorName)| <= |powerProfiles|
  {
    if authorName.Some? && authorName.value != "" {
      WithKeyMembers(powerProfiles, GithubFn(), authorName.value);
    }
  }

  /** Filtering is done profile by profile, so it keeps the order of the list. */
  lemma {:induction false} AuthorProfilesOrder(a: seq<PowerProfile>, b: seq<PowerProfile>, authorName: Option<string>)
    ensures AuthorProfiles(a + b, authorName) == AuthorProfiles(a, authorName) + AuthorProfiles(b, authorName)
  {
    if authorName.Some? && authorName.value != "" {
      WithKeyConcat(a, b, GithubFn(), authorName.value);
    }
  }

  /** The group sizes, over any list of the distinct device types present, add up to the count. */
  lemma GroupSizes(authorProfiles: seq<PowerProfile>, ks: seq<string>)
    requires Distinct(ks)
    requires forall k :: k in KeysOf(authorProfiles, DeviceTypeFn()) ==> k in ks
    ensures SizeSum(authorProfiles, DeviceTypeFn(), ks) == |authorProfiles|
  {
    forall i | 0 <= i < |authorProfiles| ensures DeviceTypeFn()(authorProfiles[i]) in ks {
      assert DeviceTypeFn()(authorProfiles[i]) in KeysOf(authorProfiles, DeviceTypeFn());
    }
    GroupSizesSum(authorProfiles, DeviceTypeFn(), ks);
  }

  /** The plural `s` is there exactly when the count is not 1. */
  lemma ContributionPlural(count: nat)
    ensures EndsWith(ContributionText(count), "contributions") <==> count != 1
    ensures StartsWith(ContributionText(count), NatToString(count))
  {
    var t := ContributionText(count);
    var n := NatToString(count);
    if count == 1 {
      assert t == "1 contribution";
    } else {
      assert t[|t| - 13..] == "contributions";
    }
    assert t[..|n|] == n;
  }
}
