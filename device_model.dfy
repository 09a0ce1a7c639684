/**
 * The records the microservice client exchanges with the WURFL server
 * (WmClient/Model.cs), the errors it raises, and the transport outcome that
 * stands for an HTTP exchange. A C# string or array that may be null is an
 * `Option`.
 */
module DeviceModel {
  import opened Wrappers

  /** JSONDeviceData: the detected device's capabilities and the server's stamps. */
  datatype DeviceData = DeviceData(
    capabilities: map<string, string>,
    error: Option<string>,
    mtime: int,
    apiVersion: Option<string>,
    ltime: Option<string>)

  /** A device answer carries a server-side error: a non-null, non-empty `Error`. */
  predicate HasError(d: DeviceData) {
    d.error.Some? && |d.error.value| > 0
  }

  /** JSONMakeModel: one row of the all-devices listing. */
  datatype MakeModel = MakeModel(brandName: string, modelName: string, marketingName: string)

  /** JSONModelMktName: a model and its marketing name, as listed under a make. */
  datatype ModelMktName = ModelMktName(modelName: string, marketingName: string)

  /** JSONDeviceOsVersions: one row of the OS and version listing. */
  datatype DeviceOsVersions = DeviceOsVersions(deviceOs: string, deviceOsVersion: string)

  /** JSONInfoData: what the server reports about itself. */
  datatype InfoData = InfoData(
    wurflApiVersion: Option<string>,
    wmVersion: Option<string>,
    wurflInfo: Option<string>,
    importantHeaders: Option<seq<string>>,
    staticCaps: Option<seq<string>>,
    virtualCaps: Option<seq<string>>,
    ltime: Option<string>)

  /** Request: the body of a lookup POST. */
  datatype Request = Request(
    lookupHeaders: map<string, string>,
    requestedCaps: Option<seq<string>>,
    requestedVcaps: Option<seq<string>>,
    wurflId: Option<string>,
    tacCode: Option<string>)

  /** A freshly constructed Request: an empty header dictionary, everything else null. */
  const EmptyRequest: Request := Request(map[], None, None, None, None)

  /** The HTTP call the client makes: a GET of a URL or a POST of a request to it. */
  datatype Outgoing = HttpGet(url: string) | HttpPost(url: string, body: Request)

  /**
   * How an HTTP exchange ends: the call or the body decoding throws (with
   * the exception's message), the status is not a success, or a body is read.
   */
  datatype Response<T> = TransportFailure(message: string) | Unsuccessful | Received(body: T)

  /**
   * What the client raises: a WmException with its message, or one of the
   * .NET exceptions that escape it unwrapped (a null dereference, a second
   * `Add` of a key to a dictionary).
   */
  datatype Failure = WmError(message: string) | NullReference | DuplicateKey

  /** The message of .NET's NullReferenceException. */
  const NullReferenceMessage: string := "Object reference not set to an instance of an object."

  /** The message of the ArgumentNullException Array.Sort raises on a null array. */
  const ArgumentNullMessage: string := "Value cannot be null.\r\nParameter name: array"

  /** String.IsNullOrEmpty */
  predicate IsNullOrEmpty(s: Option<string>) {
    s.None? || |s.value| == 0
  }

  /** checkData: the info answer names its versions and at least one capability list. */
  predicate CheckData(d: InfoData) {
    && !IsNullOrEmpty(d.wmVersion)
    && !IsNullOrEmpty(d.wurflApiVersion)
    && !IsNullOrEmpty(d.wurflInfo)
    && (d.staticCaps.Some? || d.virtualCaps.Some?)
  }

  /**
   * createURL: `scheme://host:port`, then `/baseURI` when a non-empty base
   * URI is set, then the route path.
   */
  function CreateUrl(scheme: string, host: string, port: string, baseUri: Option<string>, path: string): (u: string)
    ensures var n := |scheme| + 3 + |host| + 1 + |port|;
      && |u| >= n + |path|
      && u[..n] == scheme + "://" + host + ":" + port
      && u[|u| - |path|..] == path
      && (baseUri.Some? && |baseUri.value| > 0 ==>
            |u| == n + 1 + |baseUri.value| + |path| && u[n..n + 1 + |baseUri.value|] == "/" + baseUri.value)
      && (baseUri.None? || |baseUri.value| == 0 ==> |u| == n + |path|)
  {
    var root := scheme + "://" + host + ":" + port;
    if baseUri.Some? && |baseUri.value| > 0 then
      var u := root + "/" + baseUri.value + path;
      assert u[..|root|] == root;
      assert u[|root|..|root| + 1 + |baseUri.value|] == "/" + baseUri.value;
      u
    else
      var u := root + path;
      assert u[..|root|] == root;
      u
  }
}
