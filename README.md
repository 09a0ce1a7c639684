# WURFL microservice client: caches and invalidation

This project models the caching core of the .NET client for the WURFL
microservice. That core has two parts:

- **`LRUCache`**, the fixed-capacity least-recently-used cache the client puts
  device answers into. It is a dictionary from key to node plus a doubly-linked
  recency list: `head` is the most recent entry, `tail` the least recent.
- **The caching and invalidation logic of `WmClient`**:
  - `Create` and `GetInfo`: the server's info answer, checked by `checkData`,
    supplies the important headers, the capability arrays (sorted) and the
    first load time;
  - the cache key built from the server's important headers;
  - cache-aside lookups by user-agent, by device id and by request headers;
  - invalidation when a device answer carries a new load time (`Ltime`);
  - the cache-size settings and reports;
  - the requested-capability filters, which use binary search over the sorted
    capability arrays;
  - the maker and OS tables derived from the server's listings.

The model has three layers:

- **Abstract specifications, as functional modules.** `LruSpec` describes the
  cache as an ordered sequence of distinct keys, most recent first, plus a value
  map over exactly those keys. `ClientSpec` describes a client state
  (`ClientState`) and one function per client operation. Each such function
  returns the new state, the result or failure, and the HTTP call the operation
  makes.
- **Imperative classes, as the source has them.**
  - `LruCache.LRUCache` keeps its nodes in an arena (a sequence of nodes whose
    links are indices). Alongside the arena it keeps the real dictionary and real
    `head`/`tail` handles. Every method is proved to leave `Contents()` as
    `LruSpec` prescribes.
  - `Client.WmClient` holds the client's fields and two `LRUCache` objects. Every
    method is proved to leave `Model()` (plus its result and the call it makes)
    as `ClientSpec` prescribes.
  - The loops of the source stay loops, with invariants tying them to the
    specification functions: the header-key loop, the capability filters, the
    table-building `foreach`s and the backward removal of empty versions.
- **Properties, as lemmas over the specifications.** `LruSpec` holds the cache
  properties. `ClientProps` holds the client properties: what a hit and a miss
  do, what is and is not cached, what is cleared when, and what the tables
  contain.

The server is not modelled. Each operation that would make an HTTP call takes
the call's outcome as an input `Response<T>`, which is one of:

- `TransportFailure(message)`: the call or the decoding threw;
- `Unsuccessful`: the status was not a success, so the body stays null;
- `Received(body)`: a non-null body was read.

A success status with a null body is `TransportFailure` with .NET's
null-reference message. Every operation dereferences the body inside its
`try`, so it raises the same error as a failed call with that message.
After `DestroyConnection` the HTTP client is null. Each call then throws
inside its `try`, so its outcome is also `TransportFailure`. The message is
that of whatever the null client raises: .NET's null-reference message for
`GetAsync`, and possibly an argument-null message for the `PostAsJsonAsync`
extension method.

The operation returns the `Outgoing` call it would have made, or `None` when it
makes no call. Exceptions become `Failure` values:

- `WmError(message)` for a `WmException`;
- `NullReference` for a null dereference that escapes unwrapped;
- `DuplicateKey` for a second `Add` of a dictionary key.

The model follows these details of the code:

- `ClearCaches` also resets the maker and OS tables (`WmClient/WmClient.cs:707-722`).
- `LookupUserAgent` does not look at a device's `Error` and caches any device
  it receives (`WmClient/WmClient.cs:384-387`).
- An unsuccessful status is handled differently by each lookup:
  - in `LookupDeviceID`, `device.Ltime` is dereferenced outside any `try`
    (`WmClient/WmClient.cs:431-433`), so it is a `NullReference`;
  - in `LookupRequest` the same dereference is inside the `try` and becomes a
    `WmError` wrapping .NET's null-reference message;
  - in `LookupUserAgent` it is a null result.
- The single-kind capability setters assign inside their loop
  (`WmClient/WmClient.cs:278`, `303`), so an empty list keeps the previous
  requested list.
- The cache never resets `head` on eviction. With capacity 1, the inserted
  node's `Next` therefore still points at the evicted node. The list invariant
  asks for a null `Next` at the tail only when the capacity is at least 2.
- `GetAllDevicesForMake` and `GetAllVersionsForOS` format their error with
  `%s`, which `String.Format` does not expand. The message is modelled as
  written: `"Error getting data from WM server: %s does not exist"`.

## Model

| member | source | states |
|---|---|---|
| LruSpec.Capacity | WmClient/LRUCache.cs:26-50 | a positive size becomes the capacity; any other size gives DEFAULT_SIZE = 10000 |
| LruCache.LRUCache.constructor | WmClient/LRUCache.cs:44-57 | the new cache is valid and empty, with capacity `Capacity(size)` |
| LruCache.LRUCache.Default | WmClient/LRUCache.cs:39-42 | the parameterless constructor gives an empty cache of capacity 10000 |
| LruCache.LRUCache.GetEntry | WmClient/LRUCache.cs:68-83 | the returned value and the new abstract contents are those of `LruSpec.Get`; the arena list stays valid |
| LruCache.LRUCache.PutEntry | WmClient/LRUCache.cs:91-115 | the new contents are `LruSpec.Put` of the old; afterwards `head` is the node of the key just put and `tail` is a live node |
| LruCache.LRUCache.AddEntry | WmClient/LRUCache.cs:97-108 | miss branch: a fresh node for the key; the tail is evicted when the count equals the capacity; the key is indexed; the state is ready for the value write and the move |
| LruCache.LRUCache.EvictTail | WmClient/LRUCache.cs:101-106 | the tail's key leaves the dictionary; `tail` becomes its `Previous`, whose `Next` is cleared; the recency order loses its last key; `head` is not touched |
| LruCache.LRUCache.Finish | WmClient/LRUCache.cs:110-112 | writing the value, moving to head and fixing a null `tail` leave exactly the intended abstract contents |
| LruCache.LRUCache.Settle | WmClient/LRUCache.cs:111-112 | moving to head and then `if (tail == null) tail = head` restore validity with the intended contents |
| LruCache.LRUCache.Clear | WmClient/LRUCache.cs:117-126 | the contents become empty with the same capacity; `head` and `tail` are null |
| LruCache.LRUCache.Size | WmClient/LRUCache.cs:128-134 | the result is the number of stored entries and of keys in the recency order, between 0 and the capacity; it reads without changing anything |
| LruCache.LRUCache.MoveToHead | WmClient/LRUCache.cs:146-163 | the node's key becomes first in the recency order while the others keep their order; `head` is the node; the dictionary and every node's key and value are unchanged; `tail` is right |
| LruCache.LRUCache.Relink | WmClient/LRUCache.cs:150-160 | the pointer rewrites: the neighbours bypass the node, and the node points at the old head, which points back at it |
| LruSpec.PutPreservesWf | WmClient/LRUCache.cs:91-115 | a put keeps the keys distinct, keeps them the keys of the value map, and keeps the size at most the capacity |
| LruSpec.GetPreservesWf | WmClient/LRUCache.cs:68-83 | a lookup keeps the invariant and the capacity |
| LruSpec.ClearPreservesWf | WmClient/LRUCache.cs:117-126 | clearing keeps the invariant |
| LruSpec.PutAll | WmClient/LRUCache.cs:91-115 | any sequence of puts keeps the invariant and the capacity |
| LruSpec.GetMiss | WmClient/LRUCache.cs:74-77 | a key that is not stored returns none and changes neither the entries nor the order |
| LruSpec.GetHit | WmClient/LRUCache.cs:79-81 | a stored key returns its value and becomes the most recent; every other key keeps its relative order; no entry changes |
| LruSpec.PutExisting | WmClient/LRUCache.cs:97-111 | putting a stored key overwrites its value, keeps the size and promotes the key |
| LruSpec.PutEvictsTail | WmClient/LRUCache.cs:101-107 | putting a new key into a full cache removes exactly the tail key, inserts the new key at the head, keeps the size at the capacity and keeps every other value |
| LruSpec.PutInsertsAtHead | WmClient/LRUCache.cs:97-108 | putting a new key into a cache with room adds it at the head, evicts nothing and grows the size by one |
| LruSpec.PutThenGet | WmClient/LRUCache.cs:110-112 | after any put, getting the key returns the value just put; the key is at the head and the size is at most the capacity |
| LruSpec.ClearMisses | WmClient/LRUCache.cs:117-126 | after a clear every key misses, with no entries and an empty order |
| LruSpec.PutAllFresh | WmClient/LRUCache.cs:97-111 | new distinct keys put while there is room go in front, last first; every entry keeps its value and nothing is evicted |
| LruSpec.FillThenOverflow | WmClient/LRUCache.cs:101-107 | a cache of capacity n filled with n distinct keys loses exactly the first key when one more new key is put; every other key keeps its value; the order is the new key, then the rest newest first |
| LruSpec.OverflowExample | NUnit-Test/LRUCacheTest.cs:30-40 | with capacity 5, putting "0" to "4" and then "5" loses "0" only; "1" to "5" are found with their values |
| LruSpec.RecencyExample | WmClient/LRUCache.cs:79-106 | with capacity 2, after put a, put b, get a and put c, the key b is evicted, a and c are found, and the order is [c, a] |
| DeviceModel.CheckData | WmClient/WmClient.cs:167-173 | checkData: the info answer's WM version, API version and WURFL info are all non-null and non-empty, and at least one capability array is non-null; `ClientProps.CreateSucceeds` and `ClientProps.GetInfoEffect` state what its outcome decides |
| DeviceModel.HasError | WmClient/WmClient.cs:568-571 | the device answer's error check, also at lines 490-493: the `Error` is non-null and non-empty; `ClientProps.DeviceIdFailures` and `ClientProps.RequestFailures` state what it decides |
| DeviceModel.CreateUrl | WmClient/WmClient.cs:176-186 | the URL is `scheme://host:port`, then `/baseURI` only when the base URI is non-empty, then the route path |
| Capabilities.LessTransitive | WmClient/WmClient.cs:146-147 | the order the arrays are sorted by is transitive |
| Capabilities.LessTotal | WmClient/WmClient.cs:146-147 | of two different names one is below the other |
| Capabilities.Insert | WmClient/WmClient.cs:146-147 | inserting a name into a sorted array leaves it sorted, with that name added and nothing else changed (as a multiset) |
| Capabilities.SortNames | WmClient/WmClient.cs:146-147 | `Array.Sort` leaves the array sorted and a permutation of its input |
| Capabilities.SortedUnique | WmClient/WmClient.cs:146-147 | two sorted permutations of the same names are equal, so whatever algorithm `Array.Sort` uses, it produces what `SortNames` does |
| Capabilities.BinarySearch | WmClient/WmClient.cs:226 | over a sorted array, a non-negative result is the index of the name; a negative one is the complement of the insertion point, below which every element is smaller and from which every element is larger |
| Capabilities.ArrayHasValue | WmClient/WmClient.cs:224-227 | binary search finds the name exactly when the sorted array contains it |
| Capabilities.PickMembers | WmClient/WmClient.cs:242-252 | a name is kept exactly when it is among the input, in the kept kind and not in the excluded kind |
| Capabilities.PickOrder | WmClient/WmClient.cs:242-254 | the kept names are a subsequence of the input: the input order is preserved |
| Client.WmClient.HasStaticCapability | WmClient/WmClient.cs:213-216 | true exactly when the name is a static capability of the server |
| Client.WmClient.HasVirtualCapability | WmClient/WmClient.cs:219-222 | true exactly when the name is a virtual capability of the server |
| Client.WmClient.SplitNames | WmClient/WmClient.cs:239-252 | the loop puts a static name in the static list and otherwise a virtual name in the virtual list, in input order |
| Client.WmClient.FilterNames | WmClient/WmClient.cs:271-279 | the single-kind loop: an empty input keeps the previous list; otherwise the names of the kept kind, in order |
| Client.WmClient.SetRequestedCapabilities | WmClient/WmClient.cs:229-256 | null sets both requested lists to null; otherwise the two lists of the split; the caches are cleared in both cases |
| Client.WmClient.SetRequestedStaticCapabilities | WmClient/WmClient.cs:262-281 | null sets the static list to null; otherwise the filtered static list; the caches are cleared |
| Client.WmClient.SetRequestedVirtualCapabilities | WmClient/WmClient.cs:287-306 | null sets the virtual list to null; otherwise the filtered virtual list; the caches are cleared |
| Headers.LookupIgnoresCase | WmClient/WmClient.cs:735-741 | header names that differ only in case find the same values |
| Headers.ReCasedSameKey | WmClient/WmClient.cs:725-744 | headers whose names differ only in case give the same cache key |
| Headers.SwapSameKey | WmClient/WmClient.cs:734-742 | two headers with different names can arrive in either order: the key follows the important-headers order, not the request's |
| Headers.ExtraSameKey | WmClient/WmClient.cs:734-742 | a header matching no important name does not change the key |
| Headers.MissingIsEmpty | WmClient/WmClient.cs:737-740 | an important header that is absent is null and adds the empty string |
| Headers.LookupHeadersContent | WmClient/WmClient.cs:469-481 | a successful build maps exactly the important names with a non-null, non-empty header, each to that header |
| Headers.ReCasedLookupHeaders | WmClient/WmClient.cs:469-481 | re-cased header names build the same lookup headers |
| Headers.AddLookupHeaders | WmClient/WmClient.cs:469-481 | the header loop builds the lookup-header dictionary of `LookupHeaders`, failing on a repeated name |
| Headers.LookupHeadersSucceed | WmClient/WmClient.cs:471-480 | with no important name repeated, the build succeeds |
| Headers.RepeatFails | WmClient/WmClient.cs:471-480 | an important name listed at any two positions, with a non-empty header, makes `Add` fail with a duplicate key |
| Headers.OnlyDuplicate | WmClient/WmClient.cs:471-480 | the only way the build fails is the duplicate-key `Add` |
| Headers.FailureRepeats | WmClient/WmClient.cs:471-480 | a failed build lists some important name with a non-empty header at two positions; with `RepeatFails`, the build fails if and only if it does |
| Tables.GroupAt | WmClient/WmClient.cs:793-803 | under each key the grouped dictionary holds that key's values in row order; a key is present exactly when some row has it |
| Tables.GroupContents | WmClient/WmClient.cs:793-803 | the dictionary's keys are exactly the rows' keys, each holding its rows' values in order |
| Tables.MembersNonEmpty | WmClient/WmClient.cs:795-802 | every key in the built dictionary has at least one value |
| Tables.NamesContents | WmClient/WmClient.cs:792-809 | the set of names holds each row's key exactly once and nothing else |
| Tables.BuildMakes | WmClient/WmClient.cs:791-803 | the foreach builds the brand dictionary `Group` and the brand list `Names` of the listing |
| Tables.BuildOses | WmClient/WmClient.cs:839-853 | the foreach builds the OS dictionary and the OS list of the listing |
| Tables.NonEmptyMembers | WmClient/WmClient.cs:660-666 | exactly the non-empty versions survive the removal |
| Tables.NonEmptyIdempotent | WmClient/WmClient.cs:660-666 | removing empty versions a second time removes nothing |
| Tables.RemoveEmpty | WmClient/WmClient.cs:658-666 | the backward loop with an in-place `RemoveAt` leaves the versions without the empty strings, in order |
| ClientSpec.New | WmClient/WmClient.cs:121-133 | a client under construction is well formed and has no caches and no load time; its scheme is the given one, or "http" when that is null or empty; host, port and base URI are as given |
| Client.WmClient.constructor | WmClient/WmClient.cs:99-102 | the new object with the field initialisers and the settings of lines 121-133 is the state `New` describes, with both caches null |
| Client.WmClient.Create | WmClient/WmClient.cs:118-158 | the client Create returns, or the error it raises, and its info call are those of `ClientSpec.Create`; a returned client is fresh, valid and has no caches |
| Client.WmClient.TakeInfo | WmClient/WmClient.cs:143-147 | the important headers and the two sorted capability arrays become the client's; nothing else changes and the client stays valid |
| Client.WmClient.GetInfo | WmClient/WmClient.cs:314-347 | the new state, the result and the call are those of `ClientSpec.GetInfo` |
| ClientProps.CreateSucceeds | WmClient/WmClient.cs:118-158 | Create calls getinfo at the client's URL. It succeeds exactly when the answer passes checkData and names both capability arrays. The client then has no caches and no requested lists, and takes the server's important headers and load time. Its capability arrays hold the server's names |
| ClientProps.CreateFailures | WmClient/WmClient.cs:139-156 | a failed call, a null answer, an answer failing checkData and a null capability array each raise a WmException with the matching message |
| ClientProps.CreateKeepsNames | WmClient/WmClient.cs:144-147 | a name is a capability of the created client exactly when the server listed it; an array the server sent sorted is kept as sent |
| ClientProps.GetInfoEffect | WmClient/WmClient.cs:314-347 | GetInfo returns the answer exactly when it passes checkData, null exactly on an unsuccessful status, and raises otherwise. The state changes only for a passing answer with a new load time, and then as ClearCachesIfNeeded clears it. Asking again with the same answer changes nothing |
| ClientProps.GetInfoAfterDestroy | WmClient/WmClient.cs:314-347 | after DestroyConnection the null HTTP client makes GetInfo raise a WmException |
| Client.WmClient.ClearCaches | WmClient/WmClient.cs:695-723 | the new state is `ClientSpec.ClearCaches` of the old |
| Client.WmClient.ClearIfPresent | WmClient/WmClient.cs:697-705 | a cache that exists is emptied; a null one stays null |
| Client.WmClient.ClearCachesIfNeeded | WmClient/WmClient.cs:683-693 | the new state is `ClientSpec.ClearCachesIfNeeded` of the old and the given time |
| Client.WmClient.SetCacheSize | WmClient/WmClient.cs:160-164 | two fresh caches, as `ClientSpec.SetCacheSize` prescribes |
| Client.WmClient.GetActualCacheSizes | WmClient/WmClient.cs:754-768 | the result is `[device-id cache size, user-agent cache size]`, with 0 for a cache that does not exist |
| Client.WmClient.GetUserAgentCacheKey | WmClient/WmClient.cs:725-744 | null headers fail with "No User-Agent provided"; null important headers dereference null; otherwise the key is the concatenation of the important headers' values in order |
| Client.WmClient.SafePutDevice | WmClient/WmClient.cs:746-752 | the device is put into the cache when it exists; a null cache stays null |
| Client.WmClient.StoreDevice | WmClient/WmClient.cs:386-387 | the freshness check on the device's load time, then the put into the lookup's cache |
| Client.WmClient.LookupUserAgent | WmClient/WmClient.cs:357-403 | state, result and call are those of `ClientSpec.LookupUserAgent` |
| Client.WmClient.LookupDeviceID | WmClient/WmClient.cs:411-437 | state, result and call are those of `ClientSpec.LookupDeviceId`, with internalLookup's error check |
| Client.WmClient.LookupRequest | WmClient/WmClient.cs:446-518 | state, result and call are those of `ClientSpec.LookupRequest` |
| Client.WmClient.LoadDeviceMakesData | WmClient/WmClient.cs:770-817 | state, result and call are those of `ClientSpec.LoadDeviceMakes` |
| Client.WmClient.LoadDeviceOsesData | WmClient/WmClient.cs:819-866 | state, result and call are those of `ClientSpec.LoadDeviceOses` |
| Client.WmClient.GetAllDevicesForMake | WmClient/WmClient.cs:537-553 | state, result and call are those of `ClientSpec.GetAllDevicesForMake` |
| Client.WmClient.GetAllVersionsForOS | WmClient/WmClient.cs:653-679 | state, result and call are those of `ClientSpec.GetAllVersionsForOs`; the cleaned list is stored back |
| Client.WmClient.DestroyConnection | WmClient/WmClient.cs:613-626 | the caches are cleared and the four table fields become null |
| ClientProps.ClearCachesWf | WmClient/WmClient.cs:695-723 | clearing keeps the caches well formed |
| ClientProps.ClearCachesIfNeededWf | WmClient/WmClient.cs:683-693 | the freshness check keeps the state well formed |
| ClientProps.CacheGetWf | WmClient/WmClient.cs:362-370 | a cache read keeps the cache well formed, neither creates nor removes it, and keeps its capacity |
| ClientProps.StoreWf | WmClient/WmClient.cs:386-387 | storing a fetched device keeps the state well formed |
| ClientProps.LookupUserAgentWf | WmClient/WmClient.cs:357-403 | the user-agent lookup keeps the state well formed |
| ClientProps.LookupDeviceIdWf | WmClient/WmClient.cs:411-437 | the device-id lookup keeps the state well formed |
| ClientProps.LookupRequestWf | WmClient/WmClient.cs:446-518 | the request lookup keeps the state well formed |
| ClientProps.SetRequestedWf | WmClient/WmClient.cs:229-306 | the three setters keep the state well formed |
| ClientProps.DestroyConnectionWf | WmClient/WmClient.cs:613-626 | DestroyConnection keeps the state well formed |
| ClientProps.ClearCachesEffect | WmClient/WmClient.cs:695-723 | both sizes become 0 and each existing cache keeps its capacity; every table becomes empty; the load time, requested lists, connection settings and capability arrays stay; clearing twice equals clearing once |
| ClientProps.ClearCachesIfNeededEffect | WmClient/WmClient.cs:683-693 | the state changes exactly when a non-null time differs from the stored one; the time is then stored and everything is cleared; repeating the call changes nothing more |
| ClientProps.StoreEffect | WmClient/WmClient.cs:386-387 | a newer load time is recorded. It clears the other cache and the tables, and leaves the device alone in its own cache. An older or null one leaves the tables. Either way the device is then found under its key in its own cache, a null cache stays null, and the requested lists, settings and capability arrays stay |
| ClientProps.CacheSizesBounded | WmClient/WmClient.cs:754-768 | each reported size is at most its cache's capacity, and 0 for a cache that does not exist |
| ClientProps.SetCacheSizeEffect | WmClient/WmClient.cs:160-164 | two empty caches: the user-agent one with the given capacity (the default for a non-positive one), the device-id one with 20000; nothing else changes |
| ClientProps.UserAgentHit | WmClient/WmClient.cs:362-370 | a cached user-agent is answered from the cache without a call and without a load-time check; only the recency changes |
| ClientProps.UserAgentMissThenHit | WmClient/WmClient.cs:373-389 | a miss posts the user-agent with the requested capabilities; the device returned, error or not, is cached; the next lookup is a hit without a call |
| ClientProps.UserAgentUnanswered | WmClient/WmClient.cs:381-395 | a failed exchange raises a retrieval error and changes nothing; an unsuccessful status returns null and changes nothing |
| ClientProps.UserAgentWithoutCache | WmClient/WmClient.cs:362-388 | without a user-agent cache every lookup makes a call and nothing is cached |
| ClientProps.DeviceIdHit | WmClient/WmClient.cs:416-423 | a cached device id is answered from the cache without a call |
| ClientProps.DeviceIdMissThenHit | WmClient/WmClient.cs:428-436 | a miss posts the id; a device without an error is returned and cached; the next lookup is a hit |
| ClientProps.DeviceIdFailures | WmClient/WmClient.cs:564-581 | a device carrying an error raises the server's message and nothing is cached; a failed exchange raises a retrieval error; an unsuccessful status dereferences null |
| ClientProps.RequestKeyFailures | WmClient/WmClient.cs:729-735 | null headers fail with "No User-Agent provided"; null important headers dereference null; no call is made in either case |
| ClientProps.ReCasedRequest | WmClient/WmClient.cs:455-481 | re-cased header names meet the same outcome: same key, same cache entry, same call |
| ClientProps.RequestHit | WmClient/WmClient.cs:455-463 | a request whose key is cached is answered from the cache without a call |
| ClientProps.RequestMissThenHit | WmClient/WmClient.cs:466-500 | a miss posts the non-empty important headers; a device without an error is cached under the key; the same headers then hit |
| ClientProps.RequestFailures | WmClient/WmClient.cs:486-510 | an error device, a failed exchange and an unsuccessful status each raise an error and leave the state unchanged |
| ClientProps.RequestRepeatedHeader | WmClient/WmClient.cs:471-480 | whenever the important headers list a name twice and that header has a non-empty value, a lookup that misses the cache fails with a duplicate key before any call and changes nothing |
| ClientProps.UserAgentKey | WmClient/WmClient.cs:735-743 | a lone User-Agent header keys the cache by its value |
| ClientProps.UserAgentThenRequest | WmClient/WmClient.cs:387 | both lookups share the user-agent cache: a device cached by LookupUserAgent is what LookupRequest returns, without a call |
| ClientProps.SetRequestedMembers | WmClient/WmClient.cs:238-256 | static names go to the static list; names that are only virtual go to the virtual list; others are dropped; both keep input order; the caches are cleared and the load time stays |
| ClientProps.SetRequestedNull | WmClient/WmClient.cs:231-236 | a null list sets what it sets to null and clears the caches |
| ClientProps.SetRequestedStaticMembers | WmClient/WmClient.cs:262-281 | keeps exactly the static names, in order; an empty list keeps the previous list; the virtual list stays; the caches are cleared |
| ClientProps.SetRequestedVirtualMembers | WmClient/WmClient.cs:287-306 | keeps exactly the virtual names, in order; an empty list keeps the previous list; the static list stays; the caches are cleared |
| ClientProps.NextLookupRequests | WmClient/WmClient.cs:595-606 | after the capabilities are set, the next user-agent lookup makes a POST whose body carries each requested static name among the capabilities, and each requested name that is only virtual among the virtual ones |
| ClientSpec.WithCapabilities | WmClient/WmClient.cs:595-606 | addCapabilitiesToRequest: each requested list is set on the request only when it is non-null and non-empty |
| ClientProps.SentCapabilities | WmClient/WmClient.cs:595-606 | on a freshly built request, a list is sent exactly when it is non-null and non-empty, and then as it is; a name is sent exactly when it is requested; headers, device id and TAC code are untouched |
| ClientProps.NamesNonEmpty | WmClient/WmClient.cs:792-809 | a non-empty listing gives a non-empty name list |
| ClientProps.MakesLoadedOnce | WmClient/WmClient.cs:773-810 | the listing is fetched once; after a non-empty one, loading again makes no call and changes nothing |
| ClientProps.OsesLoadedOnce | WmClient/WmClient.cs:821-859 | the OS listing is fetched once; after a non-empty one, loading again makes no call and changes nothing |
| ClientProps.DevicesForMakeContents | WmClient/WmClient.cs:537-552 | the makes are the listing's brands; the answer is the make's models in row order, or the does-not-exist error; every row of the make is in the answer |
| ClientProps.DevicesForMakeLoaded | WmClient/WmClient.cs:539-551 | once loaded, the answer comes from the stored dictionary without a call |
| ClientProps.DevicesForMakeUnanswered | WmClient/WmClient.cs:787-816 | a failed exchange raises an error and changes nothing; an unsuccessful status changes nothing; after DestroyConnection the listing is fetched again, the null HTTP client raises the same error with the null-reference message, and no dictionary is created |
| ClientProps.ClearCachesForcesReload | WmClient/WmClient.cs:712-716 | after ClearCaches the next GetAllDevicesForMake fetches the listing again |
| ClientProps.VersionsForOsContents | WmClient/WmClient.cs:653-679 | the OSes are the listing's OS names; the answer is the OS's non-empty versions in order, or the does-not-exist error |
| ClientProps.VersionsOfOs | WmClient/WmClient.cs:656-673 | a version is answered exactly when it is non-empty and some row pairs it with the OS |
| ClientProps.VersionsForOsAgain | WmClient/WmClient.cs:658-673 | the cleaned list is stored back: asking again makes no call, changes nothing and gives the same answer |
| ClientProps.MembersIn | WmClient/WmClient.cs:848-852 | a value is listed under a key exactly when a row pairs them |

## Left out

- HTTP transport and JSON are not modelled: `HttpClient`, `GetAsync`/`PostAsJsonAsync`, `ReadAsAsync` and `response.Dispose`. Each call's outcome is an input, and the call an operation would make is an output.
- `Create` calls `DestroyConnection` on the client it abandons after a failure. This is not modelled, because that client is discarded.
- `Array.Sort` sorts the info answer's own arrays in place. The model sorts a copy (`SortNames`), so the sorting of the answer `GetInfo` returned is not modelled.
- `ArgumentNullMessage` is the .NET Framework wording of the exception a null array raises in `Array.Sort`. Other runtimes word it differently.
- `Sorted` and `Capabilities.Less` use ordinal string order, while the source uses the culture-sensitive default comparer for both `Array.Sort` and `Array.BinarySearch`. The sorted order and membership agree with the source when the culture comparer tells two names apart exactly when they differ, as plain ASCII capability names do.
- Client.WmClient.HasStaticCapability, Client.WmClient.HasVirtualCapability: a name that the culture comparer treats as equal to a different listed name is not modelled. For example, a name with a soft hyphen (`"a\u00ADb"`) compares equal to `"ab"`, so the source finds it where the model's `r <==> capName in staticCaps` does not.
- Header names are matched by ASCII case folding, while `NameValueCollection` uses invariant-culture case-insensitive comparison.
- Locks (`_lock`, `_mutex`, `_deviceMakesLock`, `_deviceOSesLock`) and `ConcurrentDictionary` are not modelled, because they exist for concurrency. Each operation is one atomic step.
- `DestroyConnection` disposing the `HttpClient` is not modelled, because it is I/O. After it, the outcome of a later call is still an input: the null-client dereference is the caller's `TransportFailure`.
- The public setters `Host`, `Port`, `ImportantHeaders`, `StaticCaps` and `VirtualCaps` are not modelled, since the client logic never calls them after `Create`. Scheme, host, port and base URI are therefore constants. The important headers and capability arrays are written only by `Create`.
- `GetAllDeviceMakes`, `GetAllOSes` and `GetApiVersion` are not modelled. The first two return the table field after `LoadDeviceMakesData`/`LoadDeviceOsesData`, which `MakesLoadedOnce`, `OsesLoadedOnce`, `DevicesForMakeContents` and `VersionsForOsContents` describe. The third returns a constant.
- The `makeModels` field is kept only as the value ClearCaches resets, since nothing in the client writes it otherwise.
- Null keys, capability names and header values inside lists are not modelled, nor a null `HttpRequest`; only a null header collection is. Received bodies are non-null. A success status with a null body is `TransportFailure(NullReferenceMessage)`, because every operation dereferences the body inside its `try`.
- `HashSet` enumeration order is not modelled. The maker and OS lists come out in first-occurrence order; the set of names is what the source guarantees.
- LruCache.LRUCache: arena nodes are never freed (garbage collection is not modelled), so the arena only grows.
- The multithreaded tests and the timing helper are not modelled.
