/**
 * What the client's caching and invalidation logic guarantees, proved over
 * the functions of `ClientSpec`: cache-aside lookups, which answers are
 * cached and which are not, invalidation on a new data load, the
 * requested-capability filters and the derived maker and OS tables.
 */
module ClientProps {
  import opened Wrappers
  import opened DeviceModel
  import opened LruSpec
  import opened Capabilities
  import opened Headers
  import opened Tables
  import opened ClientSpec

  /** The cache exists and holds `d` under `key`. */
  ghost predicate Holds(c: Cache, key: string, d: DeviceData) {
    c.Some? && key in c.value.values && c.value.values[key] == d
  }

  /** The cache exists and holds nothing under `key`. */
  ghost predicate Lacks(c: Cache, key: string) {
    c.Some? && key !in c.value.values
  }

  /** A device answer that carries a newer load time than the one the client has seen. */
  predicate Newer(s: ClientState, d: DeviceData) {
    d.ltime.Some? && d.ltime != s.ltime
  }

  // ---------------------------------------------------------------------
  // Well-formedness is kept by every operation

  lemma ClearCachesWf(s: ClientState)
    requires ClientSpec.Wf(s)
    ensures ClientSpec.Wf(ClearCaches(s))
  {
    if s.uaCache.Some? {
      ClearPreservesWf(s.uaCache.value);
    }
    if s.devIdCache.Some? {
      ClearPreservesWf(s.devIdCache.value);
    }
  }

  lemma ClearCachesIfNeededWf(s: ClientState, t: Option<string>)
    requires ClientSpec.Wf(s)
    ensures ClientSpec.Wf(ClearCachesIfNeeded(s, t))
  {
    ClearCachesWf(s.(ltime := t));
  }

  /** A lookup keeps a cache well formed and keeps its capacity. */
  lemma CacheGetWf(c: Cache, key: string)
    requires CacheWf(c)
    ensures CacheWf(CacheGet(c, key).1)
    ensures CacheGet(c, key).1.Some? <==> c.Some?
    ensures c.Some? ==> CacheGet(c, key).1.value.capacity == c.value.capacity
  {
    if c.Some? {
      GetPreservesWf(c.value, key);
    }
  }

  lemma StoreWf(s: ClientState, toUa: bool, key: string, d: DeviceData)
    requires ClientSpec.Wf(s)
    ensures ClientSpec.Wf(Store(s, toUa, key, d))
  {
    var s2 := ClearCachesIfNeeded(s, d.ltime);
    ClearCachesIfNeededWf(s, d.ltime);
    if toUa && s2.uaCache.Some? {
      PutPreservesWf(s2.uaCache.value, key, d);
    }
    if !toUa && s2.devIdCache.Some? {
      PutPreservesWf(s2.devIdCache.value, key, d);
    }
  }

  lemma LookupUserAgentWf(s: ClientState, ua: string, response: Response<DeviceData>)
    requires ClientSpec.Wf(s)
    ensures ClientSpec.Wf(LookupUserAgent(s, ua, response).state)
  {
    CacheGetWf(s.uaCache, ua);
    if response.Received? {
      StoreWf(s.(uaCache := CacheGet(s.uaCache, ua).1), true, ua, response.body);
    }
  }

  lemma LookupDeviceIdWf(s: ClientState, wurflId: string, response: Response<DeviceData>)
    requires ClientSpec.Wf(s)
    ensures ClientSpec.Wf(LookupDeviceId(s, wurflId, response).state)
  {
    CacheGetWf(s.devIdCache, wurflId);
    if response.Received? {
      StoreWf(s.(devIdCache := CacheGet(s.devIdCache, wurflId).1), false, wurflId, response.body);
    }
  }

  lemma LookupRequestWf(s: ClientState, headers: Option<HeaderList>, response: Response<DeviceData>)
    requires ClientSpec.Wf(s)
    ensures ClientSpec.Wf(LookupRequest(s, headers, response).state)
  {
    var key := UserAgentCacheKey(s, headers);
    if key.Ok? {
      CacheGetWf(s.uaCache, key.value);
      if response.Received? {
        StoreWf(s.(uaCache := CacheGet(s.uaCache, key.value).1), true, key.value, response.body);
      }
    }
  }

  lemma SetRequestedWf(s: ClientState, caps: Option<seq<string>>)
    requires ClientSpec.Wf(s)
    ensures ClientSpec.Wf(SetRequestedCapabilities(s, caps))
    ensures ClientSpec.Wf(SetRequestedStaticCapabilities(s, caps))
    ensures ClientSpec.Wf(SetRequestedVirtualCapabilities(s, caps))
  {
    if caps.Some? {
      ClearCachesWf(s.(requestedStatic := Some(Pick(caps.value, s.staticCaps, [])),
                       requestedVirtual := Some(Pick(caps.value, s.virtualCaps, s.staticCaps))));
      ClearCachesWf(s.(requestedStatic := Some(Pick(caps.value, s.staticCaps, []))));
      ClearCachesWf(s.(requestedVirtual := Some(Pick(caps.value, s.virtualCaps, []))));
    }
    ClearCachesWf(s);
    ClearCachesWf(s.(requestedStatic := None, requestedVirtual := None));
    ClearCachesWf(s.(requestedStatic := None));
    ClearCachesWf(s.(requestedVirtual := None));
  }

  lemma DestroyConnectionWf(s: ClientState)
    requires ClientSpec.Wf(s)
    ensures ClientSpec.Wf(DestroyConnection(s))
  {
    ClearCachesWf(s);
  }

  // ---------------------------------------------------------------------
  // Creation and the server's info

  /** The scheme Create gives a client: the one passed, unless that is null or empty. */
  function SchemeOf(scheme: Option<string>): string {
    if scheme.Some? && |scheme.value| > 0 then scheme.value else "http"
  }

  /**
   * Create succeeds exactly when the server answers with info that passes
   * checkData and names both capability arrays. The client then has no
   * caches and no requested lists; it has the server's important headers,
   * the server's capability names sorted, and the server's load time.
   */
  lemma CreateSucceeds(scheme: Option<string>, host: string, port: string, baseUri: Option<string>,
                       response: Response<InfoData>)
    ensures Create(scheme, host, port, baseUri, response).sent == HttpGet(CreateUrl(SchemeOf(scheme), host, port, baseUri, "/v2/getinfo/json"))
    ensures Create(scheme, host, port, baseUri, response).client.Ok? <==>
      && response.Received? && CheckData(response.body)
      && response.body.staticCaps.Some? && response.body.virtualCaps.Some?
    ensures var c := Create(scheme, host, port, baseUri, response).client;
      c.Ok? ==> var s := c.value; var info := response.body;
        && ClientSpec.Wf(s) && s.uaCache.None? && s.devIdCache.None?
        && s.requestedStatic.None? && s.requestedVirtual.None?
        && Url(s, "") == CreateUrl(SchemeOf(scheme), host, port, baseUri, "")
        && s.importantHeaders == info.importantHeaders
        && multiset(s.staticCaps) == multiset(info.staticCaps.value)
        && multiset(s.virtualCaps) == multiset(info.virtualCaps.value)
        && s.ltime == info.ltime
  {
  }

  /**
   * Each way Create fails, and the message of the WmException it raises:
   * CreateError wraps GetInfo's own InfoError, or the message of the null
   * dereference or of the failed sort.
   */
  lemma CreateFailures(scheme: Option<string>, host: string, port: string, baseUri: Option<string>,
                       m: string, info: InfoData)
    ensures Create(scheme, host, port, baseUri, TransportFailure(m)).client == Err(WmError(CreateError + InfoError + m))
    ensures Create(scheme, host, port, baseUri, Unsuccessful).client == Err(WmError(CreateError + NullReferenceMessage))
    ensures !CheckData(info) ==>
      Create(scheme, host, port, baseUri, Received(info)).client == Err(WmError(CreateError + InfoError + WrongInfo))
    ensures CheckData(info) && (info.staticCaps.None? || info.virtualCaps.None?) ==>
      Create(scheme, host, port, baseUri, Received(info)).client == Err(WmError(CreateError + ArgumentNullMessage))
  {
  }

  /**
   * A created client knows exactly the server's capability names, and keeps
   * the server's order when the server sent its arrays sorted.
   */
  lemma CreateKeepsNames(scheme: Option<string>, host: string, port: string, baseUri: Option<string>,
                         info: InfoData, name: string)
    requires Create(scheme, host, port, baseUri, Received(info)).client.Ok?
    ensures var s := Create(scheme, host, port, baseUri, Received(info)).client.value;
      && (name in s.staticCaps <==> name in info.staticCaps.value)
      && (name in s.virtualCaps <==> name in info.virtualCaps.value)
      && (Sorted(info.staticCaps.value) ==> s.staticCaps == info.staticCaps.value)
      && (Sorted(info.virtualCaps.value) ==> s.virtualCaps == info.virtualCaps.value)
  {
    var s := Create(scheme, host, port, baseUri, Received(info)).client.value;
    assert name in s.staticCaps <==> name in multiset(s.staticCaps);
    assert name in s.virtualCaps <==> name in multiset(s.virtualCaps);
    if Sorted(info.staticCaps.value) {
      SortedUnique(s.staticCaps, info.staticCaps.value);
    }
    if Sorted(info.virtualCaps.value) {
      SortedUnique(s.virtualCaps, info.virtualCaps.value);
    }
  }

  /**
   * GetInfo returns the answer exactly when it passes checkData, null on an
   * unsuccessful status, and raises otherwise. It changes the state only
   * for an answer that passes and carries a load time other than the
   * stored one, and then as ClearCachesIfNeeded does; asking again with
   * the same answer changes nothing more.
   */
  lemma GetInfoEffect(s: ClientState, response: Response<InfoData>)
    requires ClientSpec.Wf(s)
    ensures var o := GetInfo(s, response);
      && ClientSpec.Wf(o.state)
      && o.sent == Some(HttpGet(Url(s, "/v2/getinfo/json")))
      && (o.result.Ok? && o.result.value.Some? <==> response.Received? && CheckData(response.body))
      && (o.result.Ok? && o.result.value.Some? ==> o.result.value.value == response.body)
      && (o.result == Ok(None) <==> response.Unsuccessful?)
      && (o.state != s <==> response.Received? && CheckData(response.body)
                            && response.body.ltime.Some? && response.body.ltime != s.ltime)
      && (o.state != s ==> o.state == ClearCaches(s).(ltime := response.body.ltime))
      && o.state.staticCaps == s.staticCaps && o.state.virtualCaps == s.virtualCaps
      && o.state.requestedStatic == s.requestedStatic && o.state.requestedVirtual == s.requestedVirtual
      && GetInfo(o.state, response).state == o.state
  {
    if response.Received? && CheckData(response.body) {
      ClearCachesIfNeededWf(s, response.body.ltime);
      ClearCachesIfNeededEffect(s, response.body.ltime);
    }
  }

  /**
   * After DestroyConnection the HTTP client is null, so GetInfo raises a
   * WmException wrapping the null-reference message.
   */
  lemma GetInfoAfterDestroy(s: ClientState)
    ensures GetInfo(DestroyConnection(s), TransportFailure(NullReferenceMessage)).result
            == Err(WmError("Error getting informations for WM server: " + NullReferenceMessage))
  {
  }

  // ---------------------------------------------------------------------
  // Invalidation

  /**
   * ClearCaches empties each cache that exists and keeps its capacity, and
   * replaces every derived table by an empty one; the load time, the
   * requested lists and the connection settings stay.
   */
  lemma ClearCachesEffect(s: ClientState)
    ensures var t := ClearCaches(s);
      && CacheSizes(t) == [0, 0]
      && (t.uaCache.Some? <==> s.uaCache.Some?) && (t.devIdCache.Some? <==> s.devIdCache.Some?)
      && (s.uaCache.Some? ==> t.uaCache.value.capacity == s.uaCache.value.capacity)
      && (s.devIdCache.Some? ==> t.devIdCache.value.capacity == s.devIdCache.value.capacity)
      && (t.uaCache.Some? ==> t.uaCache.value.values == map[]) && (t.devIdCache.Some? ==> t.devIdCache.value.values == map[])
      && t.makeModels == Some([]) && t.deviceMakes == Some([]) && t.deviceMakesMap == Some(map[])
      && t.deviceOses == Some([]) && t.deviceOsVersionsMap == Some(map[])
      && t.ltime == s.ltime
      && t.requestedStatic == s.requestedStatic && t.requestedVirtual == s.requestedVirtual
      && Url(t, "") == Url(s, "") && t.importantHeaders == s.importantHeaders
      && t.staticCaps == s.staticCaps && t.virtualCaps == s.virtualCaps
    ensures ClearCaches(ClearCaches(s)) == ClearCaches(s)
  {
  }

  /**
   * ClearCachesIfNeeded changes the state exactly when it is given a
   * non-null load time other than the stored one; it then stores that time
   * and clears. Given the same time again, it does nothing more.
   */
  lemma ClearCachesIfNeededEffect(s: ClientState, t: Option<string>)
    ensures ClearCachesIfNeeded(s, t) != s <==> t.Some? && t != s.ltime
    ensures t.Some? && t != s.ltime ==> ClearCachesIfNeeded(s, t) == ClearCaches(s).(ltime := t)
    ensures ClearCachesIfNeeded(s, t).ltime == if t.Some? then t else s.ltime
    ensures ClearCachesIfNeeded(ClearCachesIfNeeded(s, t), t) == ClearCachesIfNeeded(s, t)
  {
    if t.Some? && t != s.ltime {
      assert ClearCachesIfNeeded(s, t).ltime != s.ltime;
    }
  }

  /**
   * Storing a fetched device: a device stamped with a newer load time first
   * empties both caches and the tables and records the time, so that its
   * own cache then holds that device alone; otherwise the tables stay. The
   * device is put into its own cache, where it is found afterwards, while
   * the other cache is left as the freshness check left it.
   */
  lemma StoreEffect(s: ClientState, toUa: bool, key: string, d: DeviceData)
    requires ClientSpec.Wf(s)
    ensures var t := Store(s, toUa, key, d);
      && t.ltime == (if Newer(s, d) then d.ltime else s.ltime)
      && (toUa ==> t.devIdCache == (if Newer(s, d) then ClearCache(s.devIdCache) else s.devIdCache))
      && (!toUa ==> t.uaCache == (if Newer(s, d) then ClearCache(s.uaCache) else s.uaCache))
      && (toUa && s.uaCache.Some? ==> Holds(t.uaCache, key, d))
      && (!toUa && s.devIdCache.Some? ==> Holds(t.devIdCache, key, d))
      && (toUa && s.uaCache.None? ==> t.uaCache.None?)
      && (!toUa && s.devIdCache.None? ==> t.devIdCache.None?)
      && (Newer(s, d) && toUa && s.uaCache.Some? ==> t.uaCache.value.keys == [key] && t.uaCache.value.values == map[key := d])
      && (Newer(s, d) && !toUa && s.devIdCache.Some? ==> t.devIdCache.value.keys == [key] && t.devIdCache.value.values == map[key := d])
      && (Newer(s, d) ==> && t.makeModels == Some([]) && t.deviceMakes == Some([]) && t.deviceMakesMap == Some(map[])
                          && t.deviceOses == Some([]) && t.deviceOsVersionsMap == Some(map[]))
      && (!Newer(s, d) ==> && t.makeModels == s.makeModels && t.deviceMakes == s.deviceMakes && t.deviceMakesMap == s.deviceMakesMap
                           && t.deviceOses == s.deviceOses && t.deviceOsVersionsMap == s.deviceOsVersionsMap)
      && t.requestedStatic == s.requestedStatic && t.requestedVirtual == s.requestedVirtual
      && Url(t, "") == Url(s, "") && t.importantHeaders == s.importantHeaders
      && t.staticCaps == s.staticCaps && t.virtualCaps == s.virtualCaps
  {
    var s2 := ClearCachesIfNeeded(s, d.ltime);
    ClearCachesIfNeededWf(s, d.ltime);
    if toUa && s2.uaCache.Some? {
      PutThenGet(s2.uaCache.value, key, d);
    }
    if !toUa && s2.devIdCache.Some? {
      PutThenGet(s2.devIdCache.value, key, d);
    }
  }

  // ---------------------------------------------------------------------
  // Cache sizes

  /** Each reported size is at most its cache's capacity, and 0 for a cache that does not exist. */
  lemma CacheSizesBounded(s: ClientState)
    requires ClientSpec.Wf(s)
    ensures |CacheSizes(s)| == 2
    ensures 0 <= CacheSizes(s)[0] <= (if s.devIdCache.Some? then s.devIdCache.value.capacity else 0)
    ensures 0 <= CacheSizes(s)[1] <= (if s.uaCache.Some? then s.uaCache.value.capacity else 0)
  {
    if s.uaCache.Some? {
      assert |s.uaCache.value.values| == |s.uaCache.value.keys|;
    }
    if s.devIdCache.Some? {
      assert |s.devIdCache.value.values| == |s.devIdCache.value.keys|;
    }
  }

  /**
   * SetCacheSize leaves two empty caches: the user-agent one holding the
   * given number of entries (the default size for a non-positive number),
   * the device-id one DeviceDefaultCacheSize.
   */
  lemma SetCacheSizeEffect(s: ClientState, uaMaxEntries: int)
    requires ClientSpec.Wf(s)
    ensures var t := SetCacheSize(s, uaMaxEntries);
      && ClientSpec.Wf(t) && CacheSizes(t) == [0, 0]
      && t.uaCache.Some? && t.uaCache.value.capacity == (if uaMaxEntries > 0 then uaMaxEntries else DefaultSize)
      && t.devIdCache.Some? && t.devIdCache.value.capacity == DeviceDefaultCacheSize
      && t.(uaCache := s.uaCache, devIdCache := s.devIdCache) == s
  {
    assert Distinct<string>([]);
  }

  // ---------------------------------------------------------------------
  // The user-agent lookup

  /**
   * A user-agent found in the cache is answered from it: no call is made,
   * whatever the server would answer, and only the cache's recency order
   * changes, the user-agent becoming the most recent entry.
   */
  lemma UserAgentHit(s: ClientState, ua: string, d: DeviceData, response: Response<DeviceData>)
    requires ClientSpec.Wf(s) && Holds(s.uaCache, ua, d)
    ensures var o := LookupUserAgent(s, ua, response);
      && o.result == Ok(Some(d)) && o.sent == None
      && o.state == s.(uaCache := o.state.uaCache)
      && o.state.uaCache.Some? && o.state.uaCache.value.values == s.uaCache.value.values
      && o.state.uaCache.value.keys[0] == ua
  {
    GetHit(s.uaCache.value, ua);
  }

  /**
   * A user-agent the cache lacks is posted to the server, with the requested
   * capabilities; the device the server answers with is returned and cached,
   * even one that carries an error, so the next lookup of the same
   * user-agent is answered from the cache without a call.
   */
  lemma UserAgentMissThenHit(s: ClientState, ua: string, d: DeviceData, again: Response<DeviceData>)
    requires ClientSpec.Wf(s) && Lacks(s.uaCache, ua)
    ensures var o := LookupUserAgent(s, ua, Received(d));
      && o.result == Ok(Some(d))
      && o.sent == Some(HttpPost(Url(s, "/v2/lookupuseragent/json"),
                                 WithCapabilities(s.requestedStatic, s.requestedVirtual,
                                                  EmptyRequest.(lookupHeaders := map[UserAgentHeaderName := ua]))))
      && ClientSpec.Wf(o.state) && Holds(o.state.uaCache, ua, d)
      && o.state.importantHeaders == s.importantHeaders
      && LookupUserAgent(o.state, ua, again).result == Ok(Some(d))
      && LookupUserAgent(o.state, ua, again).sent == None
  {
    GetMiss(s.uaCache.value, ua);
    StoreEffect(s, true, ua, d);
    StoreWf(s, true, ua, d);
    var o := LookupUserAgent(s, ua, Received(d));
    UserAgentHit(o.state, ua, d, again);
  }

  /**
   * On a miss, an exchange that fails changes nothing and raises an error
   * naming the failure; an unsuccessful status returns null and changes
   * nothing either.
   */
  lemma UserAgentUnanswered(s: ClientState, ua: string, m: string)
    requires ClientSpec.Wf(s) && (s.uaCache.None? || Lacks(s.uaCache, ua))
    ensures LookupUserAgent(s, ua, TransportFailure(m)).result == Err(WmError("Error retrieving device data: " + m))
    ensures LookupUserAgent(s, ua, TransportFailure(m)).state == s
    ensures LookupUserAgent(s, ua, Unsuccessful).result == Ok(None)
    ensures LookupUserAgent(s, ua, Unsuccessful).state == s
  {
    if s.uaCache.Some? {
      GetMiss(s.uaCache.value, ua);
    }
  }

  /** Without a user-agent cache every lookup is a call, and nothing is cached. */
  lemma UserAgentWithoutCache(s: ClientState, ua: string, d: DeviceData)
    requires ClientSpec.Wf(s) && s.uaCache.None?
    ensures LookupUserAgent(s, ua, Received(d)).sent.Some?
    ensures LookupUserAgent(s, ua, Received(d)).result == Ok(Some(d))
    ensures LookupUserAgent(s, ua, Received(d)).state.uaCache.None?
  {
  }

  // ---------------------------------------------------------------------
  // The device-id lookup

  /** A device id found in the cache is answered from it, without a call. */
  lemma DeviceIdHit(s: ClientState, wurflId: string, d: DeviceData, response: Response<DeviceData>)
    requires ClientSpec.Wf(s) && Holds(s.devIdCache, wurflId, d)
    ensures var o := LookupDeviceId(s, wurflId, response);
      && o.result == Ok(d) && o.sent == None
      && o.state == s.(devIdCache := o.state.devIdCache)
      && o.state.devIdCache.Some? && o.state.devIdCache.value.values == s.devIdCache.value.values
      && o.state.devIdCache.value.keys[0] == wurflId
  {
    GetHit(s.devIdCache.value, wurflId);
  }

  /**
   * A device id the cache lacks is posted to the server; a device without an
   * error is returned and cached, and the next lookup of the id is a hit.
   */
  lemma DeviceIdMissThenHit(s: ClientState, wurflId: string, d: DeviceData, again: Response<DeviceData>)
    requires ClientSpec.Wf(s) && Lacks(s.devIdCache, wurflId) && !HasError(d)
    ensures var o := LookupDeviceId(s, wurflId, Received(d));
      && o.result == Ok(d)
      && o.sent == Some(HttpPost(Url(s, "/v2/lookupdeviceid/json"),
                                 WithCapabilities(s.requestedStatic, s.requestedVirtual, EmptyRequest.(wurflId := Some(wurflId)))))
      && ClientSpec.Wf(o.state) && Holds(o.state.devIdCache, wurflId, d)
      && LookupDeviceId(o.state, wurflId, again) == Outcome(LookupDeviceId(o.state, wurflId, again).state, Ok(d), None)
  {
    GetMiss(s.devIdCache.value, wurflId);
    StoreEffect(s, false, wurflId, d);
    StoreWf(s, false, wurflId, d);
    var o := LookupDeviceId(s, wurflId, Received(d));
    DeviceIdHit(o.state, wurflId, d, again);
  }

  /**
   * On a miss, a device answer carrying an error is raised with the server's
   * message and leaves the state as it was: errors are never cached. A
   * failed exchange is raised too, and an unsuccessful status dereferences
   * the null answer.
   */
  lemma DeviceIdFailures(s: ClientState, wurflId: string, d: DeviceData, m: string)
    requires ClientSpec.Wf(s) && (s.devIdCache.None? || Lacks(s.devIdCache, wurflId))
    ensures HasError(d) ==> LookupDeviceId(s, wurflId, Received(d)) == Outcome(s, Err(WmError("Received error from WM server: " + d.error.value)), LookupDeviceId(s, wurflId, Received(d)).sent)
    ensures LookupDeviceId(s, wurflId, TransportFailure(m)).result == Err(WmError("Error retrieving device data: " + m))
    ensures LookupDeviceId(s, wurflId, TransportFailure(m)).state == s
    ensures LookupDeviceId(s, wurflId, Unsuccessful).result == Err(NullReference)
    ensures LookupDeviceId(s, wurflId, Unsuccessful).state == s
  {
    if s.devIdCache.Some? {
      GetMiss(s.devIdCache.value, wurflId);
    }
  }

  // ---------------------------------------------------------------------
  // The request lookup

  /**
   * The cache key comes first: without headers there is no user-agent to
   * look up, and a client that knows no important headers dereferences null;
   * neither makes a call or changes the state.
   */
  lemma RequestKeyFailures(s: ClientState, hs: HeaderList, response: Response<DeviceData>)
    requires ClientSpec.Wf(s)
    ensures LookupRequest(s, None, response) == Outcome(s, Err(WmError("No User-Agent provided")), None)
    ensures s.importantHeaders.None? ==> LookupRequest(s, Some(hs), response) == Outcome(s, Err(NullReference), None)
  {
  }

  /** Header names are compared without regard to case: re-cased headers meet the same outcome. */
  lemma ReCasedRequest(s: ClientState, h1: HeaderList, h2: HeaderList, response: Response<DeviceData>)
    requires ClientSpec.Wf(s) && ReCased(h1, h2)
    ensures LookupRequest(s, Some(h1), response) == LookupRequest(s, Some(h2), response)
  {
    if s.importantHeaders.Some? {
      ReCasedSameKey(h1, h2, s.importantHeaders.value);
      ReCasedLookupHeaders(h1, h2, s.importantHeaders.value);
    }
  }

  /** A request whose key the cache holds is answered from it, without a call. */
  lemma RequestHit(s: ClientState, hs: HeaderList, d: DeviceData, response: Response<DeviceData>)
    requires ClientSpec.Wf(s) && s.importantHeaders.Some? && Holds(s.uaCache, CacheKey(hs, s.importantHeaders.value), d)
    ensures var o := LookupRequest(s, Some(hs), response);
      && o.result == Ok(d) && o.sent == None
      && o.state == s.(uaCache := o.state.uaCache)
      && o.state.uaCache.Some? && o.state.uaCache.value.values == s.uaCache.value.values
  {
    GetHit(s.uaCache.value, CacheKey(hs, s.importantHeaders.value));
  }

  /**
   * A request whose key the cache lacks, with no important header named
   * twice, posts the non-empty important headers to the server; a device
   * without an error is returned and cached under the key, so the same
   * headers are then answered from the cache.
   */
  lemma RequestMissThenHit(s: ClientState, hs: HeaderList, d: DeviceData, again: Response<DeviceData>)
    requires ClientSpec.Wf(s) && s.importantHeaders.Some? && NoRepeats(s.importantHeaders.value)
    requires Lacks(s.uaCache, CacheKey(hs, s.importantHeaders.value)) && !HasError(d)
    ensures var o := LookupRequest(s, Some(hs), Received(d));
      && o.result == Ok(d)
      && o.sent == Some(HttpPost(Url(s, "/v2/lookuprequest/json"),
                                 WithCapabilities(s.requestedStatic, s.requestedVirtual,
                                                  EmptyRequest.(lookupHeaders := LookupHeaders(hs, s.importantHeaders.value).value))))
      && ClientSpec.Wf(o.state) && Holds(o.state.uaCache, CacheKey(hs, s.importantHeaders.value), d)
      && LookupRequest(o.state, Some(hs), again).result == Ok(d)
      && LookupRequest(o.state, Some(hs), again).sent == None
  {
    var key := CacheKey(hs, s.importantHeaders.value);
    GetMiss(s.uaCache.value, key);
    LookupHeadersSucceed(hs, s.importantHeaders.value);
    StoreEffect(s, true, key, d);
    StoreWf(s, true, key, d);
    var o := LookupRequest(s, Some(hs), Received(d));
    RequestHit(o.state, hs, d, again);
  }

  /**
   * On a miss, a device answer carrying an error is raised with the server's
   * message and not cached; a failed exchange or an unsuccessful status is
   * raised as a retrieval error, and the state stays as it was.
   */
  lemma RequestFailures(s: ClientState, hs: HeaderList, d: DeviceData, m: string)
    requires ClientSpec.Wf(s) && s.importantHeaders.Some?
    requires s.uaCache.None? || Lacks(s.uaCache, CacheKey(hs, s.importantHeaders.value))
    ensures HasError(d) ==> LookupRequest(s, Some(hs), Received(d)).state == s
    ensures HasError(d) && LookupHeaders(hs, s.importantHeaders.value).Ok? ==>
      LookupRequest(s, Some(hs), Received(d)).result == Err(WmError("Received error from WM server: " + d.error.value))
    ensures LookupRequest(s, Some(hs), TransportFailure(m)).state == s
    ensures LookupHeaders(hs, s.importantHeaders.value).Ok? ==>
      LookupRequest(s, Some(hs), TransportFailure(m)).result == Err(WmError("Error retrieving device data: " + m))
    ensures LookupRequest(s, Some(hs), Unsuccessful).state == s
    ensures LookupHeaders(hs, s.importantHeaders.value).Ok? ==>
      LookupRequest(s, Some(hs), Unsuccessful).result == Err(WmError("Error retrieving device data: " + NullReferenceMessage))
  {
    if s.uaCache.Some? {
      GetMiss(s.uaCache.value, CacheKey(hs, s.importantHeaders.value));
    }
  }

  /**
   * An important header named twice whose value is non-empty makes the
   * request's dictionary reject the second name before any call.
   */
  lemma RequestRepeatedHeader(s: ClientState, hs: HeaderList, i: int, j: int, response: Response<DeviceData>)
    requires ClientSpec.Wf(s) && s.importantHeaders.Some?
    requires 0 <= i < j < |s.importantHeaders.value| && s.importantHeaders.value[i] == s.importantHeaders.value[j]
    requires Lookup(hs, s.importantHeaders.value[i]).Some? && Lookup(hs, s.importantHeaders.value[i]).value != ""
    requires s.uaCache.None? || Lacks(s.uaCache, CacheKey(hs, s.importantHeaders.value))
    ensures LookupRequest(s, Some(hs), response) == Outcome(s, Err(DuplicateKey), None)
  {
    RepeatFails(hs, s.importantHeaders.value, i, j);
    if s.uaCache.Some? {
      GetMiss(s.uaCache.value, CacheKey(hs, s.importantHeaders.value));
    }
  }

  /** A lone User-Agent header keys the cache by its value. */
  lemma UserAgentKey(ua: string)
    ensures CacheKey([(UserAgentHeaderName, ua)], [UserAgentHeaderName]) == ua
  {
    var hs := [(UserAgentHeaderName, ua)];
    assert [UserAgentHeaderName][..0] == [];
    assert hs[1..] == [];
    assert ValuesOf(hs, UserAgentHeaderName) == [ua];
  }

  /**
   * Both lookups share the user-agent cache: when User-Agent is the only
   * important header, a device that LookupUserAgent cached, error or not, is
   * what LookupRequest then returns for that user-agent, without a call.
   */
  lemma UserAgentThenRequest(s: ClientState, ua: string, d: DeviceData, again: Response<DeviceData>)
    requires ClientSpec.Wf(s) && s.importantHeaders == Some([UserAgentHeaderName]) && Lacks(s.uaCache, ua)
    ensures var o := LookupUserAgent(s, ua, Received(d));
      && ClientSpec.Wf(o.state)
      && LookupRequest(o.state, Some([(UserAgentHeaderName, ua)]), again).result == Ok(d)
      && LookupRequest(o.state, Some([(UserAgentHeaderName, ua)]), again).sent == None
  {
    var o := LookupUserAgent(s, ua, Received(d));
    UserAgentMissThenHit(s, ua, d, again);
    UserAgentKey(ua);
    RequestHit(o.state, [(UserAgentHeaderName, ua)], d, again);
  }

  // ---------------------------------------------------------------------
  // The requested capabilities

  /**
   * SetRequestedCapabilities splits the names: a name the server knows as
   * static is requested as static, one it knows only as virtual is requested
   * as virtual, any other is dropped; both lists keep the input order, and
   * the caches are emptied so no answer for the old lists survives.
   */
  lemma SetRequestedMembers(s: ClientState, caps: seq<string>, x: string)
    ensures var t := SetRequestedCapabilities(s, Some(caps));
      && t.requestedStatic.Some? && t.requestedVirtual.Some?
      && (x in t.requestedStatic.value <==> x in caps && x in s.staticCaps)
      && (x in t.requestedVirtual.value <==> x in caps && x in s.virtualCaps && x !in s.staticCaps)
      && Subsequence(t.requestedStatic.value, caps) && Subsequence(t.requestedVirtual.value, caps)
      && t.uaCache == ClearCache(s.uaCache) && t.devIdCache == ClearCache(s.devIdCache) && t.ltime == s.ltime
  {
    PickMembers(caps, s.staticCaps, [], x);
    PickMembers(caps, s.virtualCaps, s.staticCaps, x);
    PickOrder(caps, s.staticCaps, []);
    PickOrder(caps, s.virtualCaps, s.staticCaps);
  }

  /** A null list resets what it sets to null, and still empties the caches. */
  lemma SetRequestedNull(s: ClientState)
    ensures SetRequestedCapabilities(s, None) == ClearCaches(s).(requestedStatic := None, requestedVirtual := None)
    ensures SetRequestedStaticCapabilities(s, None) == ClearCaches(s).(requestedStatic := None)
    ensures SetRequestedVirtualCapabilities(s, None) == ClearCaches(s).(requestedVirtual := None)
  {
  }

  /**
   * SetRequestedStaticCapabilities keeps the names the server knows as
   * static, in input order; an empty list leaves the previous static list in
   * place. The virtual list is untouched, and the caches are emptied.
   */
  lemma SetRequestedStaticMembers(s: ClientState, caps: seq<string>, x: string)
    ensures var t := SetRequestedStaticCapabilities(s, Some(caps));
      && (|caps| > 0 ==> t.requestedStatic.Some? && (x in t.requestedStatic.value <==> x in caps && x in s.staticCaps))
      && (|caps| > 0 ==> Subsequence(t.requestedStatic.value, caps))
      && (|caps| == 0 ==> t.requestedStatic == s.requestedStatic)
      && t.requestedVirtual == s.requestedVirtual
      && t.uaCache == ClearCache(s.uaCache) && t.devIdCache == ClearCache(s.devIdCache)
  {
    PickMembers(caps, s.staticCaps, [], x);
    PickOrder(caps, s.staticCaps, []);
  }

  /** SetRequestedVirtualCapabilities, likewise for the virtual list. */
  lemma SetRequestedVirtualMembers(s: ClientState, caps: seq<string>, x: string)
    ensures var t := SetRequestedVirtualCapabilities(s, Some(caps));
      && (|caps| > 0 ==> t.requestedVirtual.Some? && (x in t.requestedVirtual.value <==> x in caps && x in s.virtualCaps))
      && (|caps| > 0 ==> Subsequence(t.requestedVirtual.value, caps))
      && (|caps| == 0 ==> t.requestedVirtual == s.requestedVirtual)
      && t.requestedStatic == s.requestedStatic
      && t.uaCache == ClearCache(s.uaCache) && t.devIdCache == ClearCache(s.devIdCache)
  {
    PickMembers(caps, s.virtualCaps, [], x);
    PickOrder(caps, s.virtualCaps, []);
  }

  /**
   * On a request built fresh, as every lookup builds it, the server is sent
   * exactly the requested names: a list goes only when it is non-null and
   * non-empty, and the rest of the request is untouched.
   */
  lemma SentCapabilities(rs: Option<seq<string>>, rv: Option<seq<string>>, req: Request, x: string)
    requires req.requestedCaps.None? && req.requestedVcaps.None?
    ensures var r := WithCapabilities(rs, rv, req);
      && r.lookupHeaders == req.lookupHeaders && r.wurflId == req.wurflId && r.tacCode == req.tacCode
      && (r.requestedCaps.Some? <==> rs.Some? && |rs.value| > 0) && (r.requestedCaps.Some? ==> r.requestedCaps == rs)
      && (r.requestedVcaps.Some? <==> rv.Some? && |rv.value| > 0) && (r.requestedVcaps.Some? ==> r.requestedVcaps == rv)
      && (r.requestedCaps.Some? && x in r.requestedCaps.value <==> rs.Some? && x in rs.value)
      && (r.requestedVcaps.Some? && x in r.requestedVcaps.value <==> rv.Some? && x in rv.value)
  {
  }

  /**
   * After the requested capabilities are set, the next user-agent lookup
   * goes to the server, and a requested name travels in its body: a static
   * one among the capabilities, a virtual-only one among the virtual ones.
   */
  lemma NextLookupRequests(s: ClientState, caps: seq<string>, x: string, ua: string, response: Response<DeviceData>)
    requires ClientSpec.Wf(s) && x in caps
    ensures var t := SetRequestedCapabilities(s, Some(caps));
      var sent := LookupUserAgent(t, ua, response).sent;
      && ClientSpec.Wf(t)
      && sent.Some? && sent.value.HttpPost?
      && (x in s.staticCaps ==> sent.value.body.requestedCaps.Some? && x in sent.value.body.requestedCaps.value)
      && (x in s.virtualCaps && x !in s.staticCaps ==>
            sent.value.body.requestedVcaps.Some? && x in sent.value.body.requestedVcaps.value)
  {
    SetRequestedWf(s, Some(caps));
    PickMembers(caps, s.staticCaps, [], x);
    PickMembers(caps, s.virtualCaps, s.staticCaps, x);
    var t := SetRequestedCapabilities(s, Some(caps));
    if t.uaCache.Some? {
      ClearMisses(s.uaCache.value, ua);
      GetMiss(t.uaCache.value, ua);
    }
  }

  // ---------------------------------------------------------------------
  // The maker and OS tables

  /** The makes are not loaded yet: LoadDeviceMakesData will call the server. */
  predicate MakesPending(s: ClientState) {
    !(s.deviceMakes.Some? && |s.deviceMakes.value| > 0)
  }

  predicate OsesPending(s: ClientState) {
    !(s.deviceOses.Some? && |s.deviceOses.value| > 0)
  }

  /** Some key among the rows, so the names are not empty. */
  lemma NamesNonEmpty<T>(pairs: seq<(string, T)>)
    requires |pairs| > 0
    ensures |Names(pairs)| > 0
  {
    NamesContents(pairs);
    assert HasKey(pairs, pairs[0].0);
  }

  /**
   * A non-empty listing is fetched once: after it has been loaded, loading
   * again makes no call and changes nothing, whatever the server would say.
   */
  lemma MakesLoadedOnce(s: ClientState, rows: seq<MakeModel>, again: Response<seq<MakeModel>>)
    requires MakesPending(s) && |rows| > 0
    ensures var o := LoadDeviceMakes(s, Received(rows));
      && o.sent == Some(HttpGet(Url(s, "/v2/alldevices/json"))) && o.result == Ok(())
      && LoadDeviceMakes(o.state, again) == Outcome(o.state, Ok(()), None)
  {
    NamesNonEmpty(MakeRows(rows));
  }

  lemma OsesLoadedOnce(s: ClientState, rows: seq<DeviceOsVersions>, again: Response<seq<DeviceOsVersions>>)
    requires OsesPending(s) && |rows| > 0
    ensures var o := LoadDeviceOses(s, Received(rows));
      && o.sent == Some(HttpGet(Url(s, "/v2/alldeviceosversions/json"))) && o.result == Ok(())
      && LoadDeviceOses(o.state, again) == Outcome(o.state, Ok(()), None)
  {
    NamesNonEmpty(OsRows(rows));
  }

  /**
   * GetAllDevicesForMake on a fresh listing: the makes become the listing's
   * brands, each once, and the answer is every model row of the make in row
   * order, or the does-not-exist error for a brand the listing lacks.
   */
  lemma DevicesForMakeContents(s: ClientState, make: string, rows: seq<MakeModel>)
    requires MakesPending(s)
    ensures var o := GetAllDevicesForMake(s, make, Received(rows));
      && o.sent == Some(HttpGet(Url(s, "/v2/alldevices/json")))
      && o.state.deviceMakes == Some(Names(MakeRows(rows)))
      && (forall b :: b in o.state.deviceMakes.value <==> exists i :: 0 <= i < |rows| && rows[i].brandName == b)
      && o.result == (if HasKey(MakeRows(rows), make) then Ok(Members(MakeRows(rows), make)) else Err(WmError(DoesNotExist)))
      && (forall i :: 0 <= i < |rows| && rows[i].brandName == make ==>
            o.result.Ok? && ModelMktName(rows[i].modelName, rows[i].marketingName) in o.result.value)
  {
    var pairs := MakeRows(rows);
    GroupAt(pairs, make);
    NamesContents(pairs);
    forall b ensures HasKey(pairs, b) <==> exists i :: 0 <= i < |rows| && rows[i].brandName == b {
      if HasKey(pairs, b) {
        var i :| 0 <= i < |pairs| && pairs[i].0 == b;
        assert rows[i].brandName == b;
      }
      if exists i :: 0 <= i < |rows| && rows[i].brandName == b {
        var i :| 0 <= i < |rows| && rows[i].brandName == b;
        assert pairs[i].0 == b;
      }
    }
    forall i | 0 <= i < |rows| && rows[i].brandName == make
      ensures HasKey(pairs, make) && ModelMktName(rows[i].modelName, rows[i].marketingName) in Members(pairs, make)
    {
      assert pairs[i].0 == make;
      MembersHas(pairs, make, i);
    }
  }

  /** Once the makes are loaded, the answer comes from the stored dictionary, without a call. */
  lemma DevicesForMakeLoaded(s: ClientState, make: string, response: Response<seq<MakeModel>>)
    requires !MakesPending(s) && s.deviceMakesMap.Some?
    ensures GetAllDevicesForMake(s, make, response) ==
      Outcome(s, if make in s.deviceMakesMap.value then Ok(s.deviceMakesMap.value[make]) else Err(WmError(DoesNotExist)), None)
  {
  }

  /**
   * A failed exchange raises an error naming it and changes nothing; so
   * does an unsuccessful status. After DestroyConnection the makes are
   * null, so the listing is fetched again; the HTTP client is null too, and
   * its dereference raises the same error with the null-reference message
   * and still creates no dictionary.
   */
  lemma DevicesForMakeUnanswered(s: ClientState, make: string, m: string)
    requires MakesPending(s)
    ensures GetAllDevicesForMake(s, make, TransportFailure(m)).result == Err(WmError("An error occurred getting makes and model data " + m))
    ensures GetAllDevicesForMake(s, make, TransportFailure(m)).state == s
    ensures GetAllDevicesForMake(s, make, Unsuccessful).state == s
    ensures var o := GetAllDevicesForMake(DestroyConnection(s), make, TransportFailure(NullReferenceMessage));
      && o.sent == Some(HttpGet(Url(s, "/v2/alldevices/json")))
      && o.result == Err(WmError("An error occurred getting makes and model data " + NullReferenceMessage))
      && o.state == DestroyConnection(s) && o.state.deviceMakesMap.None?
  {
  }

  /** ClearCaches empties the makes, so the next GetAllDevicesForMake fetches the listing again. */
  lemma ClearCachesForcesReload(s: ClientState, make: string, response: Response<seq<MakeModel>>)
    ensures GetAllDevicesForMake(ClearCaches(s), make, response).sent == Some(HttpGet(Url(s, "/v2/alldevices/json")))
  {
  }

  /**
   * GetAllVersionsForOS on a fresh listing: the OSes become the listing's
   * OS names, each once, and the answer is the OS's versions in row order
   * without the empty ones, or the does-not-exist error for an OS the
   * listing lacks.
   */
  lemma VersionsForOsContents(s: ClientState, os: string, rows: seq<DeviceOsVersions>)
    requires OsesPending(s)
    ensures var o := GetAllVersionsForOs(s, os, Received(rows));
      && o.sent == Some(HttpGet(Url(s, "/v2/alldeviceosversions/json")))
      && o.state.deviceOses == Some(Names(OsRows(rows)))
      && o.result == (if HasKey(OsRows(rows), os) then Ok(NonEmpty(Members(OsRows(rows), os))) else Err(WmError(DoesNotExist)))
  {
    GroupAt(OsRows(rows), os);
  }

  /** The versions answered for an OS are exactly the non-empty versions the listing pairs with it. */
  lemma VersionsOfOs(rows: seq<DeviceOsVersions>, os: string, v: string)
    ensures v in NonEmpty(Members(OsRows(rows), os)) <==> v != "" && exists i :: 0 <= i < |rows| && rows[i] == DeviceOsVersions(os, v)
  {
    var pairs := OsRows(rows);
    NonEmptyMembers(Members(pairs, os));
    MembersIn(pairs, os, v);
    if v in Members(pairs, os) {
      var i :| 0 <= i < |pairs| && pairs[i] == (os, v);
      assert rows[i] == DeviceOsVersions(os, v);
    }
    if exists i :: 0 <= i < |rows| && rows[i] == DeviceOsVersions(os, v) {
      var i :| 0 <= i < |rows| && rows[i] == DeviceOsVersions(os, v);
      assert pairs[i] == (os, v);
    }
  }

  /**
   * The cleaned list is stored back, so asking again for the same OS after
   * a non-empty listing makes no call, changes nothing and gives the same
   * answer.
   */
  lemma VersionsForOsAgain(s: ClientState, os: string, rows: seq<DeviceOsVersions>, again: Response<seq<DeviceOsVersions>>)
    requires OsesPending(s) && |rows| > 0
    ensures var o := GetAllVersionsForOs(s, os, Received(rows));
      GetAllVersionsForOs(o.state, os, again) == Outcome(o.state, o.result, None)
  {
    var pairs := OsRows(rows);
    NamesNonEmpty(pairs);
    var l := LoadDeviceOses(s, Received(rows)).state;
    if os in l.deviceOsVersionsMap.value {
      var m := l.deviceOsVersionsMap.value;
      var versions := NonEmpty(m[os]);
      NonEmptyIdempotent(m[os]);
      var m2 := m[os := versions];
      assert m2[os := NonEmpty(m2[os])] == m2;
    }
  }

  /** A value is listed under a key exactly when some row pairs the two. */
  lemma {:induction false} MembersIn<T>(pairs: seq<(string, T)>, k: string, v: T)
    ensures v in Members(pairs, k) <==> exists i :: 0 <= i < |pairs| && pairs[i] == (k, v)
    decreases |pairs|
  {
    if |pairs| > 0 {
      MembersIn(pairs[1..], k, v);
      if exists i :: 0 <= i < |pairs[1..]| && pairs[1..][i] == (k, v) {
        var i :| 0 <= i < |pairs[1..]| && pairs[1..][i] == (k, v);
        assert pairs[i + 1] == (k, v);
      }
      if exists i :: 0 <= i < |pairs| && pairs[i] == (k, v) {
        var i :| 0 <= i < |pairs| && pairs[i] == (k, v);
        if i > 0 {
          assert pairs[1..][i - 1] == (k, v);
        }
      }
    }
  }
}
