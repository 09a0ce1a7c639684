/**
 * The caching and invalidation logic of the WURFL microservice client
 * (WmClient/WmClient.cs) as functions on the client's state. An HTTP
 * exchange is not performed: each operation that would make one names the
 * call it makes (`sent`) and takes the server's answer as an input
 * (`response`), which it uses only when it makes the call.
 */
module ClientSpec {
  import opened Wrappers
  import opened DeviceModel
  import opened LruSpec
  import opened Capabilities
  import opened Headers
  import opened Tables

  type Cache = Option<Lru<string, DeviceData>>

  const UserAgentHeaderName: string := "User-Agent"
  const DeviceDefaultCacheSize: int := 20000

  /** The client's fields; a C# null is `None`, a lock is not represented. */
  datatype ClientState = ClientState(
    scheme: string,
    host: string,
    port: string,
    baseUri: Option<string>,
    importantHeaders: Option<seq<string>>,
    staticCaps: seq<string>,
    virtualCaps: seq<string>,
    requestedStatic: Option<seq<string>>,
    requestedVirtual: Option<seq<string>>,
    uaCache: Cache,
    devIdCache: Cache,
    ltime: Option<string>,
    makeModels: Option<seq<MakeModel>>,
    deviceMakes: Option<seq<string>>,
    deviceMakesMap: Option<map<string, seq<ModelMktName>>>,
    deviceOses: Option<seq<string>>,
    deviceOsVersionsMap: Option<map<string, seq<string>>>)

  /** What an operation leaves: the new state, its value or exception, and the HTTP call it made. */
  datatype Outcome<T> = Outcome(state: ClientState, result: Result<T, Failure>, sent: Option<Outgoing>)

  ghost predicate CacheWf(c: Cache) {
    c.Some? ==> LruSpec.Wf(c.value)
  }

  /** What every reachable client state satisfies: sorted capability arrays and well-formed caches. */
  ghost predicate Wf(s: ClientState) {
    Sorted(s.staticCaps) && Sorted(s.virtualCaps) && CacheWf(s.uaCache) && CacheWf(s.devIdCache)
  }

  /**
   * A new WmClient as Create sets it up before asking the server: the scheme
   * defaults to "http"; the capability arrays, not yet read, are empty.
   */
  function New(scheme: Option<string>, host: string, port: string, baseUri: Option<string>): (s: ClientState)
    ensures Wf(s) && s.uaCache.None? && s.devIdCache.None? && s.ltime.None?
    ensures s.scheme == (if scheme.Some? && |scheme.value| > 0 then scheme.value else "http")
    ensures s.host == host && s.port == port && s.baseUri == baseUri
  {
    ClientState(
      if scheme.Some? && |scheme.value| > 0 then scheme.value else "http",
      host, port, baseUri, None, [], [], None, None, None, None, None,
      None, None, Some(map[]), Some([]), Some(map[]))
  }

  const InfoError: string := "Error getting informations for WM server: "
  const WrongInfo: string := "Server returned empty data or a wrong json format"
  const CreateError: string := "Error creating WM CLIENT: "

  /**
   * GetInfo: a null answer on an unsuccessful status; an answer that fails
   * checkData raises an error; one that passes goes through the freshness
   * check with its load time.
   */
  function GetInfo(s: ClientState, response: Response<InfoData>): Outcome<Option<InfoData>> {
    var sent := Some(HttpGet(Url(s, "/v2/getinfo/json")));
    match response
    case TransportFailure(m) => Outcome(s, Err(WmError(InfoError + m)), sent)
    case Unsuccessful => Outcome(s, Ok(None), sent)
    case Received(info) =>
      if CheckData(info) then Outcome(ClearCachesIfNeeded(s, info.ltime), Ok(Some(info)), sent)
      else Outcome(s, Err(WmError(InfoError + WrongInfo)), sent)
  }

  /** What Create returns, or raises, and the call it makes. */
  datatype Creation = Creation(client: Result<ClientState, Failure>, sent: Outgoing)

  /**
   * Create: the new client asks the server for its info and takes from it
   * the important headers and both capability arrays, which it sorts; a
   * null answer is dereferenced and a null array cannot be sorted. Every
   * exception comes out as a WmException.
   */
  function Create(scheme: Option<string>, host: string, port: string, baseUri: Option<string>,
                  response: Response<InfoData>): Creation
  {
    var s := New(scheme, host, port, baseUri);
    var sent := HttpGet(Url(s, "/v2/getinfo/json"));
    match response
    case TransportFailure(m) => Creation(Err(WmError(CreateError + InfoError + m)), sent)
    case Unsuccessful => Creation(Err(WmError(CreateError + NullReferenceMessage)), sent)
    case Received(info) =>
      if !CheckData(info) then Creation(Err(WmError(CreateError + InfoError + WrongInfo)), sent)
      else if info.staticCaps.None? || info.virtualCaps.None? then Creation(Err(WmError(CreateError + ArgumentNullMessage)), sent)
      else
        var s1 := ClearCachesIfNeeded(s, info.ltime);
        Creation(Ok(s1.(importantHeaders := info.importantHeaders,
                        staticCaps := SortNames(info.staticCaps.value),
                        virtualCaps := SortNames(info.virtualCaps.value))), sent)
  }

  /** createURL for this client. */
  function Url(s: ClientState, path: string): string {
    CreateUrl(s.scheme, s.host, s.port, s.baseUri, path)
  }

  function ClearCache(c: Cache): Cache {
    if c.Some? then Some(LruSpec.Clear(c.value)) else None
  }

  /** ClearCaches: both caches emptied where they exist, the derived tables reset to empty ones. */
  function ClearCaches(s: ClientState): ClientState {
    s.(uaCache := ClearCache(s.uaCache), devIdCache := ClearCache(s.devIdCache),
       makeModels := Some([]), deviceMakes := Some([]), deviceMakesMap := Some(map[]),
       deviceOses := Some([]), deviceOsVersionsMap := Some(map[]))
  }

  /** ClearCachesIfNeeded: a new, non-null load time is stored and clears the caches. */
  function ClearCachesIfNeeded(s: ClientState, t: Option<string>): ClientState {
    if t.Some? && t != s.ltime then ClearCaches(s.(ltime := t)) else s
  }

  /** SetCacheSize: fresh caches, the user-agent one of the given capacity. */
  function SetCacheSize(s: ClientState, uaMaxEntries: int): ClientState {
    s.(uaCache := Some(Empty(Capacity(uaMaxEntries))), devIdCache := Some(Empty(Capacity(DeviceDefaultCacheSize))))
  }

  function CacheSize(c: Cache): int {
    if c.Some? then |c.value.values| else 0
  }

  /** GetActualCacheSizes: the device-id cache's size, then the user-agent cache's. */
  function CacheSizes(s: ClientState): seq<int> {
    [CacheSize(s.devIdCache), CacheSize(s.uaCache)]
  }

  /** DestroyConnection, apart from disposing of the HTTP client. */
  function DestroyConnection(s: ClientState): ClientState {
    ClearCaches(s).(deviceMakes := None, deviceMakesMap := None, deviceOses := None, deviceOsVersionsMap := None)
  }

  /** SetRequestedCapabilities: static names first, names only virtual second, unknown ones dropped. */
  function SetRequestedCapabilities(s: ClientState, caps: Option<seq<string>>): ClientState {
    if caps.None? then ClearCaches(s.(requestedStatic := None, requestedVirtual := None))
    else ClearCaches(s.(requestedStatic := Some(Pick(caps.value, s.staticCaps, [])),
                        requestedVirtual := Some(Pick(caps.value, s.virtualCaps, s.staticCaps))))
  }

  /** SetRequestedStaticCapabilities: the list is assigned inside the loop, so an empty input keeps the old one. */
  function SetRequestedStaticCapabilities(s: ClientState, caps: Option<seq<string>>): ClientState {
    if caps.None? then ClearCaches(s.(requestedStatic := None))
    else if |caps.value| == 0 then ClearCaches(s)
    else ClearCaches(s.(requestedStatic := Some(Pick(caps.value, s.staticCaps, []))))
  }

  /** SetRequestedVirtualCapabilities, likewise for virtual names. */
  function SetRequestedVirtualCapabilities(s: ClientState, caps: Option<seq<string>>): ClientState {
    if caps.None? then ClearCaches(s.(requestedVirtual := None))
    else if |caps.value| == 0 then ClearCaches(s)
    else ClearCaches(s.(requestedVirtual := Some(Pick(caps.value, s.virtualCaps, []))))
  }

  /** addCapabilitiesToRequest: a requested list is sent only when it is non-null and non-empty. */
  function WithCapabilities(requestedStatic: Option<seq<string>>, requestedVirtual: Option<seq<string>>, req: Request): Request {
    req.(requestedCaps := if requestedStatic.Some? && |requestedStatic.value| > 0 then requestedStatic else req.requestedCaps,
         requestedVcaps := if requestedVirtual.Some? && |requestedVirtual.value| > 0 then requestedVirtual else req.requestedVcaps)
  }

  /** GetEntry on a cache that may not exist. */
  function CacheGet(c: Cache, key: string): (Option<DeviceData>, Cache) {
    if c.None? then (None, None) else (Get(c.value, key).0, Some(Get(c.value, key).1))
  }

  /** SafePutDevice */
  function SafePut(c: Cache, key: string, d: DeviceData): Cache
    requires CacheWf(c)
  {
    if c.None? then None else Some(Put(c.value, key, d))
  }

  /** GetUserAgentCacheKey */
  function UserAgentCacheKey(s: ClientState, headers: Option<HeaderList>): Result<string, Failure> {
    if headers.None? then Err(WmError("No User-Agent provided"))
    else if s.importantHeaders.None? then Err(NullReference)
    else Ok(CacheKey(headers.value, s.importantHeaders.value))
  }

  /** The freshness check and the store that follow a successful device answer. */
  function Store(s: ClientState, toUa: bool, key: string, d: DeviceData): ClientState
    requires Wf(s)
  {
    var s2 := ClearCachesIfNeeded(s, d.ltime);
    if toUa then s2.(uaCache := SafePut(s2.uaCache, key, d)) else s2.(devIdCache := SafePut(s2.devIdCache, key, d))
  }

  /** LookupUserAgent: a null answer on an unsuccessful status; the answer's Error is not looked at. */
  function LookupUserAgent(s: ClientState, ua: string, response: Response<DeviceData>): Outcome<Option<DeviceData>>
    requires Wf(s)
  {
    var (hit, cache) := CacheGet(s.uaCache, ua);
    var s1 := s.(uaCache := cache);
    if hit.Some? then Outcome(s1, Ok(hit), None)
    else
      var sent := Some(HttpPost(Url(s, "/v2/lookupuseragent/json"),
                            WithCapabilities(s.requestedStatic, s.requestedVirtual, EmptyRequest.(lookupHeaders := map[UserAgentHeaderName := ua]))));
      match response
      case TransportFailure(m) => Outcome(s1, Err(WmError("Error retrieving device data: " + m)), sent)
      case Unsuccessful => Outcome(s1, Ok(None), sent)
      case Received(d) => Outcome(Store(s1, true, ua, d), Ok(Some(d)), sent)
  }

  /**
   * LookupDeviceID: internalLookup raises the server's error; on an
   * unsuccessful status it returns null, whose Ltime the caller then reads
   * outside any handler.
   */
  function LookupDeviceId(s: ClientState, wurflId: string, response: Response<DeviceData>): Outcome<DeviceData>
    requires Wf(s)
  {
    var (hit, cache) := CacheGet(s.devIdCache, wurflId);
    var s1 := s.(devIdCache := cache);
    if hit.Some? then Outcome(s1, Ok(hit.value), None)
    else
      var sent := Some(HttpPost(Url(s, "/v2/lookupdeviceid/json"), WithCapabilities(s.requestedStatic, s.requestedVirtual, EmptyRequest.(wurflId := Some(wurflId)))));
      match response
      case TransportFailure(m) => Outcome(s1, Err(WmError("Error retrieving device data: " + m)), sent)
      case Unsuccessful => Outcome(s1, Err(NullReference), sent)
      case Received(d) =>
        if HasError(d) then Outcome(s1, Err(WmError("Received error from WM server: " + d.error.value)), sent)
        else Outcome(Store(s1, false, wurflId, d), Ok(d), sent)
  }

  /**
   * LookupRequest: the cache key first, then the user-agent cache, then the
   * request's lookup headers; a null answer fails inside the handler and is
   * wrapped, the server's error is raised as it is.
   */
  function LookupRequest(s: ClientState, headers: Option<HeaderList>, response: Response<DeviceData>): Outcome<DeviceData>
    requires Wf(s)
  {
    var key := UserAgentCacheKey(s, headers);
    if key.Err? then Outcome(s, Err(key.error), None)
    else
      var (hit, cache) := CacheGet(s.uaCache, key.value);
      var s1 := s.(uaCache := cache);
      if hit.Some? then Outcome(s1, Ok(hit.value), None)
      else
        var lookup := LookupHeaders(headers.value, s.importantHeaders.value);
        if lookup.Err? then Outcome(s1, Err(lookup.error), None)
        else
          var sent := Some(HttpPost(Url(s, "/v2/lookuprequest/json"), WithCapabilities(s.requestedStatic, s.requestedVirtual, EmptyRequest.(lookupHeaders := lookup.value))));
          match response
          case TransportFailure(m) => Outcome(s1, Err(WmError("Error retrieving device data: " + m)), sent)
          case Unsuccessful => Outcome(s1, Err(WmError("Error retrieving device data: " + NullReferenceMessage)), sent)
          case Received(d) =>
            if HasError(d) then Outcome(s1, Err(WmError("Received error from WM server: " + d.error.value)), sent)
            else Outcome(Store(s1, true, key.value, d), Ok(d), sent)
  }

  /** LoadDeviceMakesData: nothing to do once the makes are loaded; an unsuccessful status changes nothing. */
  function LoadDeviceMakes(s: ClientState, response: Response<seq<MakeModel>>): Outcome<()> {
    if s.deviceMakes.Some? && |s.deviceMakes.value| > 0 then Outcome(s, Ok(()), None)
    else
      var sent := Some(HttpGet(Url(s, "/v2/alldevices/json")));
      match response
      case TransportFailure(m) => Outcome(s, Err(WmError("An error occurred getting makes and model data " + m)), sent)
      case Unsuccessful => Outcome(s, Ok(()), sent)
      case Received(rows) =>
        Outcome(s.(deviceMakesMap := Some(Group(MakeRows(rows))), deviceMakes := Some(Names(MakeRows(rows)))), Ok(()), sent)
  }

  /** LoadDeviceOsesData, likewise for the OS listing. */
  function LoadDeviceOses(s: ClientState, response: Response<seq<DeviceOsVersions>>): Outcome<()> {
    if s.deviceOses.Some? && |s.deviceOses.value| > 0 then Outcome(s, Ok(()), None)
    else
      var sent := Some(HttpGet(Url(s, "/v2/alldeviceosversions/json")));
      match response
      case TransportFailure(m) => Outcome(s, Err(WmError("An error occurred getting device os name and version data " + m)), sent)
      case Unsuccessful => Outcome(s, Ok(()), sent)
      case Received(rows) =>
        Outcome(s.(deviceOses := Some(Names(OsRows(rows))), deviceOsVersionsMap := Some(Group(OsRows(rows)))), Ok(()), sent)
  }

  /** String.Format leaves `%s` as it is: the message does not name the make or OS. */
  const DoesNotExist: string := "Error getting data from WM server: %s does not exist"

  /** GetAllDevicesForMake */
  function GetAllDevicesForMake(s: ClientState, make: string, response: Response<seq<MakeModel>>): Outcome<seq<ModelMktName>> {
    var o := LoadDeviceMakes(s, response);
    if o.result.Err? then Outcome(o.state, Err(o.result.error), o.sent)
    else if o.state.deviceMakesMap.None? then Outcome(o.state, Err(NullReference), o.sent)
    else if make in o.state.deviceMakesMap.value then Outcome(o.state, Ok(o.state.deviceMakesMap.value[make]), o.sent)
    else Outcome(o.state, Err(WmError(DoesNotExist)), o.sent)
  }

  /** GetAllVersionsForOS: the stored list loses its empty versions, and a copy is returned. */
  function GetAllVersionsForOs(s: ClientState, osName: string, response: Response<seq<DeviceOsVersions>>): Outcome<seq<string>> {
    var o := LoadDeviceOses(s, response);
    if o.result.Err? then Outcome(o.state, Err(o.result.error), o.sent)
    else if o.state.deviceOsVersionsMap.None? then Outcome(o.state, Err(NullReference), o.sent)
    else
      var m := o.state.deviceOsVersionsMap.value;
      if osName in m then
        var versions := NonEmpty(m[osName]);
        Outcome(o.state.(deviceOsVersionsMap := Some(m[osName := versions])), Ok(versions), o.sent)
      else Outcome(o.state, Err(WmError(DoesNotExist)), o.sent)
  }
}
