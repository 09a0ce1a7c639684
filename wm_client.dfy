/**
 * The WURFL microservice client of WmClient/WmClient.cs: its fields, and
 * the operations that read and update them, each proved to leave the state,
 * the result and the HTTP call that `ClientSpec` prescribes. The server's
 * answer to a call is an input of the operation that would make it.
 */
module Client {
  import opened Wrappers
  import opened DeviceModel
  import opened LruSpec
  import opened LruCache
  import opened Capabilities
  import opened Headers
  import opened Tables
  import opened ClientSpec

  /** The abstract contents of a cache object that may be null. */
  ghost function CacheOf(c: LRUCache?<string, DeviceData>): (r: Cache)
    reads c
    requires c != null ==> c.Valid()
    ensures CacheWf(r)
  {
    if c == null then None else Some(c.Contents())
  }

  class WmClient {
    const scheme: string
    const host: string
    const port: string
    const baseUri: Option<string>
    var importantHeaders: Option<seq<string>>
    var staticCaps: seq<string>
    var virtualCaps: seq<string>
    var requestedStatic: Option<seq<string>>
    var requestedVirtual: Option<seq<string>>
    var uaCache: LRUCache?<string, DeviceData>
    var devIdCache: LRUCache?<string, DeviceData>
    var ltime: Option<string>
    var makeModels: Option<seq<MakeModel>>
    var deviceMakes: Option<seq<string>>
    var deviceMakesMap: Option<map<string, seq<ModelMktName>>>
    var deviceOses: Option<seq<string>>
    var deviceOsVersionsMap: Option<map<string, seq<string>>>

    /** Both caches valid and distinct objects, the capability arrays sorted. */
    ghost predicate Valid()
      reads this, uaCache, devIdCache
    {
      && (uaCache != null ==> uaCache.Valid())
      && (devIdCache != null ==> devIdCache.Valid())
      && (uaCache != null && devIdCache != null ==> uaCache != devIdCache)
      && Sorted(staticCaps) && Sorted(virtualCaps)
    }

    /** The client's state as `ClientSpec` describes it. */
    ghost function Model(): (s: ClientState)
      reads this, uaCache, devIdCache
      requires Valid()
      ensures ClientSpec.Wf(s)
    {
      ClientState(scheme, host, port, baseUri, importantHeaders, staticCaps, virtualCaps,
                  requestedStatic, requestedVirtual, CacheOf(uaCache), CacheOf(devIdCache), ltime,
                  makeModels, deviceMakes, deviceMakesMap, deviceOses, deviceOsVersionsMap)
    }

    /** The private constructor and the field settings that begin Create. */
    constructor (scheme': Option<string>, host': string, port': string, baseUri': Option<string>)
      ensures Valid() && uaCache == null && devIdCache == null
      ensures Model() == New(scheme', host', port', baseUri')
    {
      scheme := if scheme'.Some? && |scheme'.value| > 0 then scheme'.value else "http";
      host := host';
      port := port';
      baseUri := baseUri';
      importantHeaders := None;
      staticCaps := [];
      virtualCaps := [];
      requestedStatic := None;
      requestedVirtual := None;
      uaCache := null;
      devIdCache := null;
      ltime := None;
      makeModels := None;
      deviceMakes := None;
      deviceMakesMap := Some(map[]);
      deviceOses := Some([]);
      deviceOsVersionsMap := Some(map[]);
    }

    /** Create: a client set up from the server's info answer, or the WmException it raises. */
    static method Create(scheme': Option<string>, host': string, port': string, baseUri': Option<string>,
                         response: Response<InfoData>) returns (r: Result<WmClient, Failure>, sent: Outgoing)
      ensures sent == ClientSpec.Create(scheme', host', port', baseUri', response).sent
      ensures r.Ok? <==> ClientSpec.Create(scheme', host', port', baseUri', response).client.Ok?
      ensures r.Err? ==> r.error == ClientSpec.Create(scheme', host', port', baseUri', response).client.error
      ensures r.Ok? ==> && fresh(r.value) && r.value.Valid() && r.value.uaCache == null && r.value.devIdCache == null
                        && r.value.Model() == ClientSpec.Create(scheme', host', port', baseUri', response).client.value
    {
      var client := new WmClient(scheme', host', port', baseUri');
      var data, call := client.GetInfo(response);
      sent := call.value;
      match data {
        case Err(e) =>
          r := Err(WmError(CreateError + e.message));
        case Ok(None) =>
          r := Err(WmError(CreateError + NullReferenceMessage));
        case Ok(Some(info)) =>
          assert response == Received(info) && CheckData(info);
          if info.staticCaps.None? || info.virtualCaps.None? {
            r := Err(WmError(CreateError + ArgumentNullMessage));
          } else {
            client.TakeInfo(info.importantHeaders, SortNames(info.staticCaps.value), SortNames(info.virtualCaps.value));
            r := Ok(client);
          }
      }
    }

    /** The assignments from the info answer that end Create, given the capability arrays sorted. */
    method TakeInfo(important: Option<seq<string>>, sortedStatic: seq<string>, sortedVirtual: seq<string>)
      requires Valid() && Sorted(sortedStatic) && Sorted(sortedVirtual)
      modifies this
      ensures Valid() && uaCache == old(uaCache) && devIdCache == old(devIdCache)
      ensures Model() == old(Model()).(importantHeaders := important, staticCaps := sortedStatic, virtualCaps := sortedVirtual)
    {
      importantHeaders, staticCaps, virtualCaps := important, sortedStatic, sortedVirtual;
    }

    /** GetInfo: the server's info answer, checked, and its load time through the freshness check. */
    method GetInfo(response: Response<InfoData>) returns (r: Result<Option<InfoData>, Failure>, sent: Option<Outgoing>)
      requires Valid()
      modifies this, uaCache, devIdCache
      ensures Valid() && uaCache == old(uaCache) && devIdCache == old(devIdCache)
      ensures Outcome(Model(), r, sent) == ClientSpec.GetInfo(old(Model()), response)
    {
      sent := Some(HttpGet(CreateUrl(scheme, host, port, baseUri, "/v2/getinfo/json")));
      match response {
        case TransportFailure(m) =>
          r := Err(WmError(InfoError + m));
        case Unsuccessful =>
          r := Ok(None);
        case Received(info) =>
          if !CheckData(info) {
            r := Err(WmError(InfoError + WrongInfo));
          } else {
            ClearCachesIfNeeded(info.ltime);
            r := Ok(Some(info));
          }
      }
    }

    method ClearCaches()
      requires Valid()
      modifies this, uaCache, devIdCache
      ensures Valid() && uaCache == old(uaCache) && devIdCache == old(devIdCache)
      ensures Model() == ClientSpec.ClearCaches(old(Model()))
    {
      ClearIfPresent(uaCache);
      ClearIfPresent(devIdCache);
      makeModels, deviceMakes, deviceMakesMap, deviceOses, deviceOsVersionsMap := Some([]), Some([]), Some(map[]), Some([]), Some(map[]);
    }

    /** The `if (cache != null) cache.Clear()` of ClearCaches. */
    static method ClearIfPresent(cache: LRUCache?<string, DeviceData>)
      requires cache != null ==> cache.Valid()
      modifies cache
      ensures cache != null ==> cache.Valid()
      ensures CacheOf(cache) == ClientSpec.ClearCache(old(CacheOf(cache)))
    {
      if cache != null {
        cache.Clear();
      }
    }

    method ClearCachesIfNeeded(t: Option<string>)
      requires Valid()
      modifies this, uaCache, devIdCache
      ensures Valid() && uaCache == old(uaCache) && devIdCache == old(devIdCache)
      ensures Model() == ClientSpec.ClearCachesIfNeeded(old(Model()), t)
    {
      if t.Some? && t != ltime {
        ltime := t;
        ClearCaches();
      }
    }

    method SetCacheSize(uaMaxEntries: int)
      requires Valid()
      modifies this
      ensures Valid() && fresh(uaCache) && fresh(devIdCache)
      ensures Model() == ClientSpec.SetCacheSize(old(Model()), uaMaxEntries)
    {
      uaCache := new LRUCache(uaMaxEntries);
      devIdCache := new LRUCache(DeviceDefaultCacheSize);
    }

    method GetActualCacheSizes() returns (sizes: seq<int>)
      requires Valid()
      ensures sizes == CacheSizes(Model())
    {
      var uaS := 0;
      var deS := 0;
      if uaCache != null {
        uaS := uaCache.Size();
      }
      if devIdCache != null {
        deS := devIdCache.Size();
      }
      sizes := [deS, uaS];
    }

    function HasStaticCapability(capName: string): (r: bool)
      reads this
      requires Sorted(staticCaps)
      ensures r <==> capName in staticCaps
    {
      ArrayHasValue(staticCaps, capName)
    }

    function HasVirtualCapability(capName: string): (r: bool)
      reads this
      requires Sorted(virtualCaps)
      ensures r <==> capName in virtualCaps
    {
      ArrayHasValue(virtualCaps, capName)
    }

    /** The loop of SetRequestedCapabilities: a static name is kept as static, else a virtual one as virtual. */
    method SplitNames(capsList: seq<string>) returns (capNames: seq<string>, vcapNames: seq<string>)
      requires Sorted(staticCaps) && Sorted(virtualCaps)
      ensures capNames == Pick(capsList, staticCaps, []) && vcapNames == Pick(capsList, virtualCaps, staticCaps)
    {
      capNames := [];
      vcapNames := [];
      for i := 0 to |capsList|
        invariant capNames == Pick(capsList[..i], staticCaps, [])
        invariant vcapNames == Pick(capsList[..i], virtualCaps, staticCaps)
      {
        var name := capsList[i];
        assert capsList[..i + 1] == capsList[..i] + [name];
        PickSnoc(capsList[..i], name, staticCaps, []);
        PickSnoc(capsList[..i], name, virtualCaps, staticCaps);
        if HasStaticCapability(name) {
          capNames := capNames + [name];
        } else if HasVirtualCapability(name) {
          vcapNames := vcapNames + [name];
        }
      }
      assert capsList[..|capsList|] == capsList;
    }

    method SetRequestedCapabilities(capsList: Option<seq<string>>)
      requires Valid()
      modifies this, uaCache, devIdCache
      ensures Valid() && uaCache == old(uaCache) && devIdCache == old(devIdCache)
      ensures Model() == ClientSpec.SetRequestedCapabilities(old(Model()), capsList)
    {
      if capsList.None? {
        requestedStatic := None;
        requestedVirtual := None;
        ClearCaches();
        return;
      }
      var capNames, vcapNames := SplitNames(capsList.value);
      requestedStatic := Some(capNames);
      requestedVirtual := Some(vcapNames);
      ClearCaches();
    }

    /**
     * The loop of a single-kind setter: each name in `keep` is added, and the
     * list built so far is kept on every pass, so `previous` survives only
     * an empty input.
     */
    method FilterNames(capsList: seq<string>, keep: seq<string>, previous: Option<seq<string>>) returns (kept: Option<seq<string>>)
      requires Sorted(keep)
      ensures kept == if |capsList| == 0 then previous else Some(Pick(capsList, keep, []))
    {
      kept := previous;
      var names := [];
      for i := 0 to |capsList|
        invariant names == Pick(capsList[..i], keep, [])
        invariant kept == if i == 0 then previous else Some(names)
      {
        var name := capsList[i];
        assert capsList[..i + 1] == capsList[..i] + [name];
        PickSnoc(capsList[..i], name, keep, []);
        if ArrayHasValue(keep, name) {
          names := names + [name];
        }
        kept := Some(names);
      }
      assert capsList[..|capsList|] == capsList;
    }

    method SetRequestedStaticCapabilities(capsList: Option<seq<string>>)
      requires Valid()
      modifies this, uaCache, devIdCache
      ensures Valid() && uaCache == old(uaCache) && devIdCache == old(devIdCache)
      ensures Model() == ClientSpec.SetRequestedStaticCapabilities(old(Model()), capsList)
    {
      if capsList.None? {
        requestedStatic := None;
        ClearCaches();
        return;
      }
      requestedStatic := FilterNames(capsList.value, staticCaps, requestedStatic);
      ClearCaches();
    }

    method SetRequestedVirtualCapabilities(vcapsList: Option<seq<string>>)
      requires Valid()
      modifies this, uaCache, devIdCache
      ensures Valid() && uaCache == old(uaCache) && devIdCache == old(devIdCache)
      ensures Model() == ClientSpec.SetRequestedVirtualCapabilities(old(Model()), vcapsList)
    {
      if vcapsList.None? {
        requestedVirtual := None;
        ClearCaches();
        return;
      }
      requestedVirtual := FilterNames(vcapsList.value, virtualCaps, requestedVirtual);
      ClearCaches();
    }

    method GetUserAgentCacheKey(headers: Option<HeaderList>) returns (r: Result<string, Failure>)
      requires Valid()
      ensures r == UserAgentCacheKey(Model(), headers)
    {
      if headers.None? {
        return Err(WmError("No User-Agent provided"));
      }
      if importantHeaders.None? {
        return Err(NullReference);
      }
      var important := importantHeaders.value;
      var key := "";
      for i := 0 to |important|
        invariant key == CacheKey(headers.value, important[..i])
      {
        assert important[..i + 1][..i] == important[..i];
        key := key + Segment(headers.value, important[i]);
      }
      assert important[..|important|] == important;
      r := Ok(key);
    }

    method SafePutDevice(cache: LRUCache?<string, DeviceData>, key: string, device: DeviceData)
      requires cache != null ==> cache.Valid()
      modifies cache
      ensures cache != null ==> cache.Valid()
      ensures CacheOf(cache) == SafePut(old(CacheOf(cache)), key, device)
    {
      if cache != null {
        cache.PutEntry(key, device);
      }
    }

    /** What every lookup does with a device it has fetched: the freshness check, then the store. */
    method StoreDevice(toUa: bool, key: string, device: DeviceData)
      requires Valid()
      modifies this, uaCache, devIdCache
      ensures Valid() && uaCache == old(uaCache) && devIdCache == old(devIdCache)
      ensures Model() == Store(old(Model()), toUa, key, device)
    {
      ClearCachesIfNeeded(device.ltime);
      if toUa {
        SafePutDevice(uaCache, key, device);
      } else {
        SafePutDevice(devIdCache, key, device);
      }
    }

    method LookupUserAgent(userAgent: string, response: Response<DeviceData>) returns (r: Result<Option<DeviceData>, Failure>, sent: Option<Outgoing>)
      requires Valid()
      modifies this, uaCache, devIdCache
      ensures Valid() && uaCache == old(uaCache) && devIdCache == old(devIdCache)
      ensures Outcome(Model(), r, sent) == ClientSpec.LookupUserAgent(old(Model()), userAgent, response)
    {
      if uaCache != null {
        var device := uaCache.GetEntry(userAgent);
        if device.Some? {
          return Ok(device), None;
        }
      }
      var req := WithCapabilities(requestedStatic, requestedVirtual, EmptyRequest.(lookupHeaders := map[UserAgentHeaderName := userAgent]));
      sent := Some(HttpPost(CreateUrl(scheme, host, port, baseUri, "/v2/lookupuseragent/json"), req));
      match response {
        case TransportFailure(m) =>
          r := Err(WmError("Error retrieving device data: " + m));
        case Unsuccessful =>
          r := Ok(None);
        case Received(device) =>
          StoreDevice(true, userAgent, device);
          r := Ok(Some(device));
      }
    }

    method LookupDeviceID(wurflId: string, response: Response<DeviceData>) returns (r: Result<DeviceData, Failure>, sent: Option<Outgoing>)
      requires Valid()
      modifies this, uaCache, devIdCache
      ensures Valid() && uaCache == old(uaCache) && devIdCache == old(devIdCache)
      ensures Outcome(Model(), r, sent) == ClientSpec.LookupDeviceId(old(Model()), wurflId, response)
    {
      if devIdCache != null {
        var device := devIdCache.GetEntry(wurflId);
        if device.Some? {
          return Ok(device.value), None;
        }
      }
      var req := WithCapabilities(requestedStatic, requestedVirtual, EmptyRequest.(wurflId := Some(wurflId)));
      sent := Some(HttpPost(CreateUrl(scheme, host, port, baseUri, "/v2/lookupdeviceid/json"), req));
      match response {
        case TransportFailure(m) =>
          r := Err(WmError("Error retrieving device data: " + m));
        case Unsuccessful =>
          r := Err(NullReference);
        case Received(device) =>
          if HasError(device) {
            r := Err(WmError("Received error from WM server: " + device.error.value));
          } else {
            StoreDevice(false, wurflId, device);
            r := Ok(device);
          }
      }
    }

    method LookupRequest(headers: Option<HeaderList>, response: Response<DeviceData>) returns (r: Result<DeviceData, Failure>, sent: Option<Outgoing>)
      requires Valid()
      modifies this, uaCache, devIdCache
      ensures Valid() && uaCache == old(uaCache) && devIdCache == old(devIdCache)
      ensures Outcome(Model(), r, sent) == ClientSpec.LookupRequest(old(Model()), headers, response)
    {
      var cacheKey := GetUserAgentCacheKey(headers);
      if cacheKey.Err? {
        return Err(cacheKey.error), None;
      }
      if uaCache != null {
        var device := uaCache.GetEntry(cacheKey.value);
        if device.Some? {
          return Ok(device.value), None;
        }
      }
      var lookup := AddLookupHeaders(headers.value, importantHeaders.value);
      if lookup.Err? {
        return Err(lookup.error), None;
      }
      var req := WithCapabilities(requestedStatic, requestedVirtual, EmptyRequest.(lookupHeaders := lookup.value));
      sent := Some(HttpPost(CreateUrl(scheme, host, port, baseUri, "/v2/lookuprequest/json"), req));
      match response {
        case TransportFailure(m) =>
          r := Err(WmError("Error retrieving device data: " + m));
        case Unsuccessful =>
          r := Err(WmError("Error retrieving device data: " + NullReferenceMessage));
        case Received(device) =>
          if HasError(device) {
            r := Err(WmError("Received error from WM server: " + device.error.value));
          } else {
            StoreDevice(true, cacheKey.value, device);
            r := Ok(device);
          }
      }
    }

    method LoadDeviceMakesData(response: Response<seq<MakeModel>>) returns (r: Result<(), Failure>, sent: Option<Outgoing>)
      requires Valid()
      modifies this
      ensures Valid() && uaCache == old(uaCache) && devIdCache == old(devIdCache)
      ensures Outcome(Model(), r, sent) == LoadDeviceMakes(old(Model()), response)
    {
      if deviceMakes.Some? && |deviceMakes.value| > 0 {
        return Ok(()), None;
      }
      sent := Some(HttpGet(CreateUrl(scheme, host, port, baseUri, "/v2/alldevices/json")));
      match response {
        case TransportFailure(m) =>
          r := Err(WmError("An error occurred getting makes and model data " + m));
        case Unsuccessful =>
          r := Ok(());
        case Received(rows) =>
          var dmMap, makes := BuildMakes(rows);
          deviceMakesMap := Some(dmMap);
          deviceMakes := Some(makes);
          r := Ok(());
      }
    }

    method LoadDeviceOsesData(response: Response<seq<DeviceOsVersions>>) returns (r: Result<(), Failure>, sent: Option<Outgoing>)
      requires Valid()
      modifies this
      ensures Valid() && uaCache == old(uaCache) && devIdCache == old(devIdCache)
      ensures Outcome(Model(), r, sent) == LoadDeviceOses(old(Model()), response)
    {
      if deviceOses.Some? && |deviceOses.value| > 0 {
        return Ok(()), None;
      }
      sent := Some(HttpGet(CreateUrl(scheme, host, port, baseUri, "/v2/alldeviceosversions/json")));
      match response {
        case TransportFailure(m) =>
          r := Err(WmError("An error occurred getting device os name and version data " + m));
        case Unsuccessful =>
          r := Ok(());
        case Received(rows) =>
          var dmMap, oses := BuildOses(rows);
          deviceOses := Some(oses);
          deviceOsVersionsMap := Some(dmMap);
          r := Ok(());
      }
    }

    method GetAllDevicesForMake(make: string, response: Response<seq<MakeModel>>) returns (r: Result<seq<ModelMktName>, Failure>, sent: Option<Outgoing>)
      requires Valid()
      modifies this
      ensures Valid() && uaCache == old(uaCache) && devIdCache == old(devIdCache)
      ensures Outcome(Model(), r, sent) == ClientSpec.GetAllDevicesForMake(old(Model()), make, response)
    {
      var loaded;
      loaded, sent := LoadDeviceMakesData(response);
      if loaded.Err? {
        return Err(loaded.error), sent;
      }
      if deviceMakesMap.None? {
        return Err(NullReference), sent;
      }
      if make in deviceMakesMap.value {
        r := Ok(deviceMakesMap.value[make]);
      } else {
        r := Err(WmError(DoesNotExist));
      }
    }

    method GetAllVersionsForOS(osName: string, response: Response<seq<DeviceOsVersions>>) returns (r: Result<seq<string>, Failure>, sent: Option<Outgoing>)
      requires Valid()
      modifies this
      ensures Valid() && uaCache == old(uaCache) && devIdCache == old(devIdCache)
      ensures Outcome(Model(), r, sent) == ClientSpec.GetAllVersionsForOs(old(Model()), osName, response)
    {
      var loaded;
      loaded, sent := LoadDeviceOsesData(response);
      if loaded.Err? {
        return Err(loaded.error), sent;
      }
      if deviceOsVersionsMap.None? {
        return Err(NullReference), sent;
      }
      var m := deviceOsVersionsMap.value;
      if osName in m {
        var osVersions := RemoveEmpty(m[osName]);
        deviceOsVersionsMap := Some(m[osName := osVersions]);
        r := Ok(osVersions);
      } else {
        r := Err(WmError(DoesNotExist));
      }
    }

    method DestroyConnection()
      requires Valid()
      modifies this, uaCache, devIdCache
      ensures Valid() && uaCache == old(uaCache) && devIdCache == old(devIdCache)
      ensures Model() == ClientSpec.DestroyConnection(old(Model()))
    {
      ClearCaches();
      deviceMakes := None;
      deviceMakesMap := None;
      deviceOses := None;
      deviceOsVersionsMap := None;
    }
  }
}
