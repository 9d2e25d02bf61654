# Session and connectivity controller of the OpenZiti Go SDK, in Dafny

This project models the sequential decision procedures inside the SDK's
context (`ziti/ziti.go`) and its context collection (`ziti/collection.go`):

- the **service catalog** diff that applies a new service snapshot to the
  `services`, `intercepts` and `sessions` maps (`processServiceUpdates`);
- **address resolution** over the intercept rules (`GetServiceForAddr`);
- the **dial-session cache** keyed `serviceId:type` (`getOrCreateSession`,
  `cacheSession`, `refreshSession`, `deleteServiceSessions`);
- the **router connection pool**: reuse-or-evict, the "existing wins"
  upsert, `OnClose`, `CloseAllEdgeRouterConns` and the selection step of
  `getEdgeRouterConn`;
- the **listener manager** of a hosted service: its state (session, router
  connections by name, connects in progress by URL, disconnection stamp,
  refresh time, closed flag) and one method per event it handles;
- the **context collection**: `Add`, `Remove`, `RemoveById`, `ForAll` and
  `NewContextWithOpts`.

Modules: `Wrappers` (Option, enumeration of a map's keys), `GoStrings`
(Go's string order), `Types` (records and `RouterConn`), `SessionCache`,
`ServiceCatalog`, `RouterPool` (value-level specifications), `Ziti` (the
`ContextImpl` class whose methods change its maps in place), `Listener`
(the `ListenerManager` class and the functions that specify it) and
`Collection` (the `CtxCollection` class).

Conventions of the model:

- Go leaves the order of map iteration open. Every loop over a map takes the
  visiting order as a parameter `order` that lists each key once
  (`Wrappers.Enumerates`); results that depend on the order (events, the
  score-0 short-circuit) are stated for that order.
- Foreign code becomes parameters: `intercept.Match` is a function
  `matchScore`, `edge.ParseServiceConfig` and `ToInterceptV1Config` are the
  fields of `ConfigParsers`, `isEdgeRouterUrlAccepted` is `accepted`, the
  latency histogram's mean is an integer function `latency`. Control-plane
  replies (`CreateSession`, `GetSession`, `EnsureAuthenticated`, the
  backoff loop) are datatype parameters holding the reply of each call site.
- Time is an integer clock `now` in nanoseconds; Go's zero `time.Time` is 0.
- Notifications on the event emitter and `OnServiceUpdate` callbacks are
  returned as sequences of events in the order they are made.

Where the code and its comments disagree, the model follows the code: the
comment at `ziti/ziti.go:1342` says a refresh updates the stored dial session
and keeps its token, but the upsert's merge returns the new value, so the
refreshed object (which carries no token) replaces the entry and line 1350
assigns a field to itself. `SessionCache.RefreshDropsCachedToken` states the
consequence.

## Model

| member | source | states |
|---|---|---|
| `SessionCache.SessionKeyInjective` | ziti/ziti.go:1257 | Two `serviceId:type` keys are equal only for the same service id and the same direction, even if ids contain colons. |
| `SessionCache.CacheSession` | ziti/ziti.go:1335-1354 | A dial session ends up under its own `id:Dial` key with create and with refresh alike; a bind session leaves the cache unchanged; no other key changes. |
| `SessionCache.CacheSessionKeepsDiscipline` | ziti/ziti.go:1335-1354 | Caching keeps the discipline that every entry is a dial session stored under the key of its own service id. |
| `SessionCache.DeleteRemovesExactlyService` | ziti/ziti.go:1356-1359 | Deleting a service's sessions removes exactly the entries of that service and keeps the key discipline. |
| `SessionCache.RefreshDropsCachedToken` | ziti/ziti.go:1341-1351 | A refresh payload without a token leaves the cached dial session with no token: the stored token is not carried forward. |
| `ServiceCatalog.RemovedInOrder` | ziti/ziti.go:459-472 | The delete pass collects only keys whose stored service id is absent from the snapshot, and no more keys than it visits. |
| `ServiceCatalog.RemovedInOrderExact` | ziti/ziti.go:459-472 | Over a duplicate-free visiting order, the delete pass collects each removable visited key exactly once. |
| `ServiceCatalog.RemovedOnce` | ziti/ziti.go:459-477 | When the order enumerates the services map, every service whose id is missing is collected (and so announced) exactly once. |
| `ServiceCatalog.UpsertedKeys` | ziti/ziti.go:480-491 | After the upsert pass the services map holds exactly the old names plus the snapshot's names. |
| `ServiceCatalog.UpsertedValueAt` | ziti/ziti.go:480-491 | After the upserts, the name of any snapshot service maps to the last snapshot service of that name. |
| `ServiceCatalog.UpsertedKeepsOther` | ziti/ziti.go:480-491 | After the upserts, a name that no snapshot service carries keeps its earlier value, or stays absent. |
| `ServiceCatalog.UpsertedValues` | ziti/ziti.go:480-491 | Every snapshot service is stored under its name (the last one of a repeated name wins); names outside the snapshot keep their value. |
| `ServiceCatalog.UpsertedKeyedByName` | ziti/ziti.go:484-491 | Upserting by name keeps every service stored under its own name. |
| `ServiceCatalog.OnlySnapshotIdsRemain` | ziti/ziti.go:474-491 | If the map only held snapshot ids before the upsert pass, it only holds snapshot ids after it. |
| `ServiceCatalog.RemovedServicesGone` | ziti/ziti.go:459-491 | After the whole diff no stored service has an id missing from the snapshot. |
| `ServiceCatalog.UpsertEventAt` | ziti/ziti.go:493-497 | The i-th upsert notification carries the i-th snapshot service and is "changed" iff its name is in the map just before its upsert, else "added". |
| `ServiceCatalog.UpsertEventKinds` | ziti/ziti.go:480-497 | The i-th notification is "changed" iff the name was stored before the pass or occurs earlier in the snapshot, else "added". |
| `ServiceCatalog.CallbacksOnlyOnDifference` | ziti/ziti.go:499-508 | An `OnServiceUpdate` "changed" callback is made only for a service whose stored value differed at its upsert; "added" only for a name not stored. |
| `ServiceCatalog.InterceptsFollowServices` | ziti/ziti.go:510-525 | Intercept rules stay keyed by the name of their own service and only under names the services map holds. |
| `ServiceCatalog.InterceptOfName` | ziti/ziti.go:510-525 | A name's rule is that of its last snapshot service that yields one (intercept.v1 first, else the client config translated); if none yields one, the old rule stays. |
| `ServiceCatalog.RenamedServiceKeepsOldName` | ziti/ziti.go:459-491 | Any stored service whose id the snapshot still carries but only under other names (a rename) keeps its entry, unchanged, under its old name. |
| `ServiceCatalog.InterceptKeysFollowSnapshot` | ziti/ziti.go:459-525 | After the whole diff every intercept rule is stored under the name of a stored service whose id occurs in the snapshot. |
| `ServiceCatalog.InterceptOutlivesItsConfig` | ziti/ziti.go:510-525 | A service that drops its intercept config keeps the rule built from its old descriptor, so intercepts and services that agreed before no longer agree. |
| `ServiceCatalog.IntendedInterceptsExact` | ziti/ziti.go:510-525 | With the intended upsert pass, intercepts that agree exactly with the services (a rule iff the service yields one, and that rule) still agree after it. |
| `ServiceCatalog.IntendedDiffKeepsInterceptsExact` | ziti/ziti.go:459-525 | The whole diff with the intended upsert pass keeps every stored service's rule exactly the one it yields. |
| `RouterPool.UnconnectedMember` | ziti/ziti.go:1052-1064 | A router is in the unconnected list iff it is a session router with at least one URL that has no pooled connection. |
| `RouterPool.DialsForMember` | ziti/ziti.go:1071-1077 | The second scan dials exactly the accepted URLs of the listed routers, under their names. |
| `RouterPool.SelectionDials` | ziti/ziti.go:1052-1077 | The selection step dials exactly the accepted URLs of the session routers that have an unpooled URL. |
| `RouterPool.AllPooledDialsNothing` | ziti/ziti.go:1052-1077 | When every session URL is pooled, nothing is listed as unconnected and nothing is dialled. |
| `RouterPool.SelectionVisitPooled` | ziti/ziti.go:1054-1059 | At a pooled URL a strictly lower latency takes over the best choice; otherwise the best choice stays; the lowest-latency invariant holds either way. |
| `Ziti.ContextImpl.ProcessServiceUpdates` | ziti/ziti.go:451-526 | The new services, intercepts and sessions maps equal the diff's specification; removal then upsert notifications and callbacks are returned in order; ids absent from the snapshot lose both session keys. |
| `Ziti.ContextImpl.CollectDeletes` | ziti/ziti.go:459-472 | The delete pass collects exactly the removable keys in visiting order, announces each and purges its `id:Bind` and `id:Dial` session keys. |
| `Ziti.ContextImpl.ScanForDeletes` | ziti/ziti.go:461-472 | The walk in map order yields `RemovedInOrder`, one removal event per collected key, and drops the session keys of exactly the collected services' ids. |
| `Ziti.ContextImpl.VisitForDelete` | ziti/ziti.go:462-471 | One visited service: if its id is not in the snapshot its key is appended, its removal announced and its two session keys dropped; otherwise nothing changes. |
| `Ziti.ContextImpl.RemoveDeleted` | ziti/ziti.go:474-477 | The collected keys are removed from services and intercepts and nothing else changes. |
| `Ziti.ContextImpl.UpsertSnapshot` | ziti/ziti.go:479-526 | The upsert pass produces `Upserted`, `UpdatedIntercepts`, `UpsertEvents` and (with a callback) `UpsertCallbacks`, keeping the catalog invariants. |
| `Ziti.ContextImpl.StoreIntercept` | ziti/ziti.go:510-525 | One service's rule is stored from whichever config shape parses; a parse error or no config stores nothing. |
| `Ziti.ContextImpl.GetServiceForAddr` | ziti/ziti.go:901-931 | No match gives no service and score -1; otherwise the score is the minimum match score, achieved by the returned service, and when positive no rule with that score has a smaller service name. |
| `Ziti.ContextImpl.DeleteServiceSessions` | ziti/ziti.go:1356-1359 | Both direction keys of the service are removed from the cache. |
| `Ziti.ContextImpl.CacheSession` | ziti/ziti.go:1335-1354 | The cache becomes `SessionCache.CacheSession` of the old cache. |
| `Ziti.ContextImpl.GetOrCreateSession` | ziti/ziti.go:1256-1278 | A cached dial key is returned without calling CreateSession; otherwise CreateSession is called, its answer returned, and a success cached (dial only). |
| `Ziti.ContextImpl.RefreshSession` | ziti/ziti.go:1326-1333 | A found session is cached with the refresh operation; an error leaves the cache as it was. |
| `Ziti.ContextImpl.OnClose` | ziti/ziti.go:445-449 | A router-disconnected event is emitted and exactly that URL leaves the pool. |
| `Ziti.ContextImpl.CloseAllEdgeRouterConns` | ziti/ziti.go:759-770 | Every pooled connection ends closed and the pool is empty. |
| `Ziti.ContextImpl.ReuseOrEvict` | ziti/ziti.go:1109-1116 | An open pooled connection for the URL is returned unchanged; a closed one is evicted before redialling. |
| `Ziti.ContextImpl.UpsertRouterConn` | ziti/ziti.go:1166-1175 | If the URL is already pooled, the existing connection is kept and used and the new one closed; else the new one is pooled. |
| `Ziti.ContextImpl.ConnectEdgeRouter` | ziti/ziti.go:1099-1203 | Reuse, failure and success paths of one dial: the pool keeps one connection per URL and a successful dial emits router-connected. |
| `Ziti.ContextImpl.DialRace` | ziti/ziti.go:1109-1175 | Two concurrent dials of one URL leave exactly the first pooled, both callers using it, and the second closed. |
| `Ziti.ContextImpl.SelectEdgeRouter` | ziti/ziti.go:1048-1077 | The choice is a lowest-latency pooled session URL (none iff no pooled URL is below MaxInt64) and the dials are those of `SelectionDials`. |
| `Ziti.ContextImpl.ScanPooled` | ziti/ziti.go:1049-1064 | The first scan keeps the lowest-latency invariant over all session URLs and builds the unconnected list. |
| `Ziti.ContextImpl.ScanRouterUrls` | ziti/ziti.go:1053-1063 | The scan of one router's URLs extends the lowest-latency invariant and appends the router once per unpooled URL. |
| `Ziti.ContextImpl.DialUnconnected` | ziti/ziti.go:1071-1077 | The dials launched are `DialsFor` the unconnected list. |
| `Ziti.ContextImpl.GetEdgeRouterConn` | ziti/ziti.go:1030-1083 | A failed refresh fails (evicting the key on "not found"); no edge routers fails; otherwise a lowest-latency pooled router is selected, or the call waits for the dials. |
| `Listener.WithListenDefaults` | ziti/ziti.go:1007-1024 | A zero ConnectTimeout becomes exactly one minute and a MaxConnections below 1 becomes exactly 1; other values and every other field are kept. |
| `Listener.RefreshBackfillsToken` | ziti/ziti.go:1600-1605 | A successful refresh installs the control plane's session with the previous session's token copied into it. |
| `Listener.RefreshClosesOnlyWhenUnauthorized` | ziti/ziti.go:1556-1597 | A refresh closes the listener only with no connections and after an unauthorized answer that re-authentication or the second lookup does not cure. |
| `Listener.RefreshKeepsASession` | ziti/ziti.go:1556-1617 | A refresh never drops an existing session; no session afterwards means there was none and creation failed. |
| `Listener.UrlLaunchesSound` | ziti/ziti.go:1540-1552 | One router's launches are its accepted URLs with no connect in progress. |
| `Listener.UrlLaunchesDistinct` | ziti/ziti.go:1540-1552 | One router's launches never repeat a URL. |
| `Listener.UrlLaunchesComplete` | ziti/ziti.go:1540-1552 | Every accepted URL of the router with no connect in progress is launched. |
| `Listener.ListenerDialsSound` | ziti/ziti.go:1534-1553 | Each dial is an accepted, not-in-progress URL of a session router that has no connection, under that router's name. |
| `Listener.ListenerDialsDistinct` | ziti/ziti.go:1534-1553 | The dialling step never dials a URL twice. |
| `Listener.ListenerDialsComplete` | ziti/ziti.go:1534-1553 | Every accepted, not-in-progress URL of every unconnected session router is dialled. |
| `Listener.ListenerManager.constructor` | ziti/ziti.go:1385-1397 | A new manager has no session, no connections and no connects, is disconnected since now, is under the redundancy cap and has its stamp. |
| `Listener.ListenerManager.HandleRouterConnectResult` | ziti/ziti.go:1465-1480 | The URL always leaves `connects`; the connection is added iff below MaxConnections and its router name is absent, so `Capped` (at most MaxConnections connections) is kept from any capped state, the stamp-less ones included. |
| `Listener.ListenerManager.CreateSessionWithBackoff` | ziti/ziti.go:1608-1617 | A created session is installed and stamped; a failure changes nothing; the cap is kept. |
| `Listener.ListenerManager.RefreshSession` | ziti/ziti.go:1556-1606 | The state after a refresh is `AfterRefresh`: install with back-filled token, re-create, or close if no connections remain; the cap is kept. |
| `Listener.ListenerManager.RouterListenFailed` | ziti/ziti.go:1650-1658 | Exactly that router is removed, the disconnection is stamped iff none remain, then a refresh and a makeMoreListeners pass follow; it is callable with no stamp as long as a session exists, and leaves the stamp present whenever it is needed. |
| `Listener.ListenerManager.ListenSuccessAsWritten` | ziti/ziti.go:1669-1671 | The disconnection stamp is cleared unconditionally; the cap is kept. |
| `Listener.ListenerManager.ListenSuccess` | ziti/ziti.go:1669-1671 | The stamp is cleared only while a session and a connection exist, so `HasStamp` (a stamp whenever makeMoreListeners reads it) is kept. |
| `Listener.ListenerManager.GetCurrentSession` | ziti/ziti.go:1619-1641 | A closed listener yields no session; otherwise the manager's current session. |
| `Listener.ListenerManager.MakeMoreListeners` | ziti/ziti.go:1509-1554 | Polling closes after the connect timeout or refreshes after a second; the dial guard then launches exactly `ListenerDials` and records each URL in `connects` at now. Only a state whose poll would read a missing stamp is excluded. |
| `Listener.ListenerManager.PollSession` | ziti/ziti.go:1514-1526 | With no session, or no routers and no connections: close when disconnected past the timeout, else refresh when the last refresh is over a second old; the stamp is required only in that polling case. |
| `Listener.ListenerManager.LaunchListeners` | ziti/ziti.go:1530-1554 | Under the guard (session, below the cap, more routers than connections) the dials are `ListenerDials`; otherwise none; the cap is untouched. |
| `Listener.ListenerManager.DialRouters` | ziti/ziti.go:1534-1553 | The routers without a connection are visited in session order and their dials are `ListenerDials`; every dialled URL is stamped with `now`. |
| `Listener.ListenerManager.LaunchRouter` | ziti/ziti.go:1540-1552 | One unconnected router's accepted, not-in-progress URLs are dialled and stamped in `connects`. |
| `Listener.StaleListenSuccess` | ziti/ziti.go:1650-1671 | A success event handled after the failure of the same connection leaves a capped state with no stamp, no connection and no edge routers, so makeMoreListeners would dereference nil. |
| `Listener.ListenFailedKeepingRouters` | ziti/ziti.go:1650-1658 | A listen failure of the only connection, with a refresh that keeps the edge router, leaves a stamped manager with nothing connected or pending. |
| `Listener.StaleListenSuccessWithRouters` | ziti/ziti.go:1509-1553 | After the stale success clears the stamp while the session still lists a router, makeMoreListeners does not poll and dials that router again. |
| `Collection.CtxCollection.constructor` | ziti/collection.go:36-40 | A new collection is empty. |
| `Collection.CtxCollection.Displaced` | ziti/collection.go:78-84 | The context Add would close is exactly the one stored under the id when it is a different instance. |
| `Collection.SdkContext.SetId` | ziti/ziti.go:425-427 | The context's id becomes the given one. |
| `Collection.CtxCollection.Add` | ziti/collection.go:77-87 | The current id maps to `ctx`, no other entry changes, a different stored instance is closed, nothing else is closed, and "each context under its own id" is kept. |
| `Collection.CtxCollection.Remove` | ziti/collection.go:89-92 | Only the entry under the context's current id is removed; nothing is closed. |
| `Collection.CtxCollection.RemoveById` | ziti/collection.go:94-97 | Only the given id is removed; nothing is closed. |
| `Collection.CtxCollection.ForAll` | ziti/collection.go:99-104 | `f` is called once per entry in map order, so with every stored context and nothing else; while each context sits under its own id, never twice with one context. |
| `Collection.RemoveAfterSetId` | ziti/collection.go:89-92 | A context renamed with SetId after Add is still stored under its old id after Remove, and the collection no longer has each context under its own id. |
| `Collection.CtxCollection.NewContextWithOpts` | ziti/collection.go:131-143 | The collection's config types are appended to the config's; a created context is added and returned, closing only the instance it displaces; on error nil is returned, the collection is unchanged and nothing is closed. |

## Findings

| source | as written | input that shows it | evidently intended | confidence | as-written member | corrected member |
|---|---|---|---|---|---|---|
| ziti/ziti.go:1669-1671 | `listenSuccessEvent.handle` sets `disconnectedTime` to nil whatever the state | one router connected, its listener breaks so the listen-failed event (1650-1658) arrives first and its refresh returns the session with no edge routers, then the success event arrives: no connection, no stamp, and `makeMoreListeners` dereferences the nil stamp at line 1517 | clear the stamp only while a connection (and a session) exists | medium, not executed | `Listener.ListenerManager.ListenSuccessAsWritten` (exhibited by `Listener.StaleListenSuccess`) | `Listener.ListenerManager.ListenSuccess` |
| ziti/ziti.go:510-525 | a service whose descriptor yields no intercept rule (no intercept config, or a parse error) leaves the rule already stored under its name, built from an older descriptor | service `A` (id1) with an intercept.v1 config, then a snapshot holding `A` (id1) without it: `services["A"]` is the new descriptor but `intercepts["A"]` is still the old rule, so `GetServiceForAddr` keeps resolving the old addresses to `A`; if `A` instead gets a new id while another service takes over id1, the rule of id1 stays under `A` | recompute the rule whenever the descriptor changes: a descriptor that yields no rule has none stored | medium, not executed | `ServiceCatalog.UpdatedIntercepts` (exhibited by `ServiceCatalog.InterceptOutlivesItsConfig`) | `ServiceCatalog.UpdatedInterceptsIntended` (proved by `ServiceCatalog.IntendedDiffKeepsInterceptsExact`) |

## Left out

- Goroutines and channels: the listener manager's `run` select loop, `createListener` posting events, `runSessionRefresh` and the `GetCurrentSession` timeout handshake. Each event handler is a sequential method; the five-second wait is not modelled.
- Backoff and timers: `EnsureAuthenticated`, the exponential backoff of `createSessionWithBackoff` and the tickers. Their outcomes are parameters.
- REST and control-plane calls, channel dialling and TLS, identity signing and the posture cache (including `AddActiveService` and the service→posture-query map rebuilt at the end of `processServiceUpdates`). In `connectEdgeRouter` the failed `GetIdentity` at ziti/ziti.go:1128-1130 does not return; the model folds every dial failure into one `dialled` flag.
- Latency histograms and probes: the float mean becomes an integer latency per URL; the probe that closes idle channels is not modelled.
- The authentication flow (`authenticate`, MFA handlers) and the `Add*Listener` wrappers around the event emitter.
- `intercept.Match` and `edge.ParseServiceConfig` are not part of this model; they are parameters.
- `netSplitHostPort`, IP parsing and JSON in `DialAddr`/`dialServiceFromAddr`.
- ziti/default_collection.go, ziti/edge/network/conn_test.go and `NewSdkCollectionFromEnv` (environment and file I/O).
- Collection.CtxCollection.Add: the `valueInMap != nil` test is not modelled because only `Add` writes the map and it never stores nil.
- Ziti.ContextImpl.GetServiceForAddr: a match score of `math.MaxInt` is excluded by the `Score` type; Go would then keep a nil service and dereference it.
- Ziti.ContextImpl.UpsertRouterConn: the losing connection is closed synchronously here, while the code closes it in a goroutine (ziti/ziti.go:1169); the close and its `OnClose` side effects (the disconnected event, the pool removal) are not modelled for the loser. The same holds for Ziti.ContextImpl.DialRace.
- Ziti.ContextImpl.ProcessServiceUpdates: models the intercept update as written (`UpdatedIntercepts`); the corrected `UpdatedInterceptsIntended` of the second finding is stated at the level of the specification functions only.
- Ziti.ContextImpl.GetEdgeRouterConn: the wait on the result channel and its connect timeout are not modelled; the outcome says whether the call waits.
