/**
 * The records the dashboard receives from the library and analytics endpoints, as the code
 * reads them once a request has resolved. Optional fields are `Option`s.
 */
module LibraryApi {
  import opened Wrappers

  /** The `author_info` block of a library model. */
  datatype AuthorInfo = AuthorInfo(name: Option<string>, email: Option<string>, github: Option<string>)

  /** One model entry of the library listing (dates are kept as the text the endpoint sends). */
  datatype LibraryModel = LibraryModel(
    id: string,
    name: string,
    deviceType: string,
    colorModes: Option<seq<string>>,
    aliases: Option<seq<string>>,
    author: Option<string>,
    authorInfo: Option<AuthorInfo>,
    updatedAt: string,
    createdAt: string,
    description: string,
    measureDevice: string,
    measureMethod: string,
    measureDescription: string,
    calculationStrategy: string,
    maxPower: Option<int>,
    standbyPower: int,
    standbyPowerOn: Option<int>,
    subProfileCount: Option<int>,
    minVersion: Option<string>,
    compatibleIntegrations: Option<seq<string>>)

  /** One manufacturer of the listing with its models. */
  datatype ManufacturerData = ManufacturerData(fullName: string, dirName: string, models: Option<seq<LibraryModel>>)

  datatype LibraryJson = LibraryJson(manufacturers: Option<seq<ManufacturerData>>)

  /** Per-profile analytics: installations, devices and share of installations. */
  datatype ProfileStats = ProfileStats(
    manufacturer: string,
    model: string,
    installationCount: Option<int>,
    count: Option<int>,
    percentage: Option<real>)
}
