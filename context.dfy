/** The SDK context (ContextImpl): the service catalog, the intercept rules,
    the dial-session cache and the router connection pool it keeps in
    concurrent maps, and the operations that update them in place. */
module Ziti {
  import opened Wrappers
  import opened Types
  import opened GoStrings
  import opened ServiceCatalog
  import SessionCache
  import opened RouterPool

  /** math.MaxInt on a 64-bit platform, the starting best score. */
  const MaxInt: int := 0x7fff_ffff_ffff_ffff

  /** A uint16 port. */
  type Port = x: int | 0 <= x < 0x1_0000

  /** A result of intercept.Match: -1 for no match, else a rank where lower
      is better. */
  type Score = x: int | -1 <= x < MaxInt

  /** A router notification on the events emitter. */
  datatype RouterEvent =
    | RouterConnected(routerName: string, url: string)
    | RouterDisconnected(routerName: string, url: string)

  /** What getEdgeRouterConn does once the session refresh is back: fail, pick
      a pooled connection, or wait for one of the dials it launched. */
  datatype Acquired =
    | RefreshFailed(reply: SessionReply)
    | NoEdgeRouters
    | Selected(conn: RouterConn)
    | AwaitingDials

  class ContextImpl {
    /** Services by name. */
    var services: map<string, ServiceDetail>
    /** Intercept rules by service name. */
    var intercepts: map<string, Intercept>
    /** Cached sessions by "serviceId:type". */
    var sessions: map<string, SessionDetail>
    /** Pooled router connections by ingress URL. */
    var routerConnections: map<string, RouterConn>

    ghost predicate Valid()
      reads this
    {
      && (forall k | k in services :: services[k].name == k)
      && intercepts.Keys <= services.Keys
      && (forall k | k in intercepts :: intercepts[k].service.name == k)
      && SessionCache.KeyDiscipline(sessions)
      && (forall u | u in routerConnections :: routerConnections[u].url == u)
    }

    constructor ()
      ensures Valid()
      ensures services == map[] && intercepts == map[] && sessions == map[] && routerConnections == map[]
    {
      services := map[];
      intercepts := map[];
      sessions := map[];
      routerConnections := map[];
    }

    // ---------------------------------------------------------------------
    // Service catalog

    /** processServiceUpdates. `order` is the order in which the services map
        is iterated; `hasCallback` says whether OnServiceUpdate is set. The
        notifications on the emitter and the callbacks are returned in the
        order they are made. */
    method ProcessServiceUpdates(snapshot: seq<ServiceDetail>, order: seq<string>, hasCallback: bool, parsers: ConfigParsers)
      returns (emitted: seq<ServiceEvent>, callbacks: seq<ServiceEvent>)
      requires Valid()
      requires Enumerates(order, services.Keys)
      modifies this
      ensures Valid()
      ensures var removed := RemovedKeys(old(services), SnapshotIds(snapshot));
        && services == Upserted(old(services) - removed, snapshot)
        && intercepts == UpdatedIntercepts(old(intercepts) - removed, snapshot, parsers)
        && sessions == old(sessions) - SessionCache.ServiceSessionKeys(set k | k in removed :: old(services)[k].id)
      ensures var ids := SnapshotIds(snapshot);
        var removals := RemovalEvents(old(services), RemovedInOrder(old(services), ids, order));
        var base := old(services) - RemovedKeys(old(services), ids);
        && emitted == removals + UpsertEvents(base, snapshot)
        && callbacks == (if hasCallback then removals + UpsertCallbacks(base, snapshot) else [])
      ensures routerConnections == old(routerConnections)
    {
      var idMap: map<string, ServiceDetail> := map[];
      for j := 0 to |snapshot|
        invariant idMap.Keys == SnapshotIds(snapshot[..j])
        invariant unchanged(this)
      {
        NamesOfPrefix(snapshot[..j + 1]);
        assert snapshot[..j + 1][..j] == snapshot[..j];
        idMap := idMap[snapshot[j].id := snapshot[j]];
      }
      assert snapshot[..|snapshot|] == snapshot;

      var deletes, removals, removalCallbacks := CollectDeletes(idMap.Keys, order, hasCallback);
      EnumeratedKeys(deletes, RemovedKeys(services, idMap.Keys));
      RemoveDeleted(deletes);
      var upserts, upsertCallbacks := UpsertSnapshot(snapshot, hasCallback, parsers);
      emitted := removals + upserts;
      callbacks := removalCallbacks + upsertCallbacks;
    }

    /** The delete pass of processServiceUpdates: visit the services in
        `order`, and for each whose id is not in `ids` collect its key,
        announce its removal and delete its sessions. */
    method CollectDeletes(ids: set<string>, order: seq<string>, hasCallback: bool)
      returns (deletes: seq<string>, emitted: seq<ServiceEvent>, callbacks: seq<ServiceEvent>)
      requires Valid()
      requires Enumerates(order, services.Keys)
      modifies this`sessions
      ensures Valid()
      ensures Enumerates(deletes, RemovedKeys(services, ids))
      ensures deletes == RemovedInOrder(services, ids, order)
      ensures emitted == RemovalEvents(services, deletes)
      ensures callbacks == if hasCallback then emitted else []
      ensures sessions == old(sessions) - SessionCache.ServiceSessionKeys(set k | k in RemovedKeys(services, ids) :: services[k].id)
      ensures services == old(services) && intercepts == old(intercepts) && routerConnections == old(routerConnections)
    {
      deletes, emitted, callbacks := ScanForDeletes(ids, order, hasCallback);
      RemovedOnce(services, ids, order);
      DeletedIds(services, ids, order);
    }

    /** The IterCb walk of the delete pass, in `order`. */
    method ScanForDeletes(ids: set<string>, order: seq<string>, hasCallback: bool)
      returns (deletes: seq<string>, emitted: seq<ServiceEvent>, callbacks: seq<ServiceEvent>)
      requires forall j | 0 <= j < |order| :: order[j] in services
      requires SessionCache.KeyDiscipline(sessions)
      modifies this`sessions
      ensures deletes == RemovedInOrder(services, ids, order)
      ensures emitted == RemovalEvents(services, deletes)
      ensures callbacks == if hasCallback then emitted else []
      ensures sessions == old(sessions) - SessionCache.ServiceSessionKeys(set j | 0 <= j < |deletes| :: services[deletes[j]].id)
      ensures SessionCache.KeyDiscipline(sessions)
    {
      deletes, emitted, callbacks := [], [], [];
      ghost var removedIds: set<string> := {};
      var i := 0;
      while i < |order|
        invariant 0 <= i <= |order|
        invariant deletes == RemovedInOrder(services, ids, order[..i])
        invariant emitted == RemovalEvents(services, deletes)
        invariant callbacks == if hasCallback then emitted else []
        invariant removedIds == set j | 0 <= j < |deletes| :: services[deletes[j]].id
        invariant sessions == old(sessions) - SessionCache.ServiceSessionKeys(removedIds)
        invariant SessionCache.KeyDiscipline(sessions)
      {
        var key := order[i];
        assert order[..i + 1][..i] == order[..i];
        deletes, emitted, callbacks, removedIds := VisitForDelete(key, ids, hasCallback, deletes, emitted, callbacks, old(sessions), removedIds);
        i := i + 1;
      }
      assert order[..|order|] == order;
    }

    /** One step of the IterCb callback of the delete pass: a service whose id
        is not in the snapshot has its key collected, its removal announced
        and its sessions deleted; any other service is left alone. */
    method VisitForDelete(key: string, ids: set<string>, hasCallback: bool,
                          deletes: seq<string>, emitted: seq<ServiceEvent>, callbacks: seq<ServiceEvent>,
                          ghost base: map<string, SessionDetail>, ghost removedIds: set<string>)
      returns (deletes': seq<string>, emitted': seq<ServiceEvent>, callbacks': seq<ServiceEvent>, ghost removedIds': set<string>)
      requires key in services
      requires forall j | 0 <= j < |deletes| :: deletes[j] in services
      requires emitted == RemovalEvents(services, deletes)
      requires callbacks == if hasCallback then emitted else []
      requires removedIds == set j | 0 <= j < |deletes| :: services[deletes[j]].id
      requires sessions == base - SessionCache.ServiceSessionKeys(removedIds)
      requires SessionCache.KeyDiscipline(sessions)
      modifies this`sessions
      ensures deletes' == deletes + (if services[key].id !in ids then [key] else [])
      ensures forall j | 0 <= j < |deletes'| :: deletes'[j] in services
      ensures emitted' == RemovalEvents(services, deletes')
      ensures callbacks' == if hasCallback then emitted' else []
      ensures removedIds' == set j | 0 <= j < |deletes'| :: services[deletes'[j]].id
      ensures sessions == base - SessionCache.ServiceSessionKeys(removedIds')
      ensures SessionCache.KeyDiscipline(sessions)
    {
      deletes', emitted', callbacks', removedIds' := deletes, emitted, callbacks, removedIds;
      var svc := services[key];
      if svc.id !in ids {
        IdsOfAppended(services, deletes, key);
        RemovalEventsAppended(services, deletes, key);
        deletes' := deletes + [key];
        if hasCallback {
          callbacks' := callbacks + [ServiceRemoved(svc)];
        }
        emitted' := emitted + [ServiceRemoved(svc)];
        PurgeServiceSessions(svc.id, base, removedIds);
        removedIds' := removedIds + {svc.id};
      }
    }

    /** The delete pass's deleteServiceSessions call, seen as one more id
        added to the ids whose sessions are gone from `base`. */
    method PurgeServiceSessions(serviceId: string, ghost base: map<string, SessionDetail>, ghost gone: set<string>)
      requires SessionCache.KeyDiscipline(sessions)
      requires sessions == base - SessionCache.ServiceSessionKeys(gone)
      modifies this`sessions
      ensures SessionCache.KeyDiscipline(sessions)
      ensures sessions == base - SessionCache.ServiceSessionKeys(gone + {serviceId})
    {
      ServiceSessionKeysOfAdded(base, gone, serviceId);
      SessionCache.DeleteRemovesExactlyService(sessions, serviceId);
      sessions := sessions - {SessionCache.SessionKey(serviceId, Bind), SessionCache.SessionKey(serviceId, Dial)};
    }

    /** The second pass: drop the collected keys from services and intercepts. */
    method RemoveDeleted(deletes: seq<string>)
      requires Valid()
      modifies this
      ensures Valid()
      ensures services == old(services) - (set j | 0 <= j < |deletes| :: deletes[j])
      ensures intercepts == old(intercepts) - (set j | 0 <= j < |deletes| :: deletes[j])
      ensures sessions == old(sessions) && routerConnections == old(routerConnections)
    {
      var d := 0;
      while d < |deletes|
        invariant 0 <= d <= |deletes|
        invariant services == old(services) - (set j | 0 <= j < d :: deletes[j])
        invariant intercepts == old(intercepts) - (set j | 0 <= j < d :: deletes[j])
        invariant sessions == old(sessions) && routerConnections == old(routerConnections)
      {
        assert (set j | 0 <= j < d + 1 :: deletes[j]) == (set j | 0 <= j < d :: deletes[j]) + {deletes[d]};
        services := services - {deletes[d]};
        intercepts := intercepts - {deletes[d]};
        d := d + 1;
      }
    }

    /** The upsert pass: store every snapshot service by name, announce it as
        changed or added, make the matching callback and store the intercept
        rule it yields. */
    method UpsertSnapshot(snapshot: seq<ServiceDetail>, hasCallback: bool, parsers: ConfigParsers)
      returns (emitted: seq<ServiceEvent>, callbacks: seq<ServiceEvent>)
      requires Valid()
      modifies this
      ensures Valid()
      ensures services == Upserted(old(services), snapshot)
      ensures intercepts == UpdatedIntercepts(old(intercepts), snapshot, parsers)
      ensures emitted == UpsertEvents(old(services), snapshot)
      ensures callbacks == if hasCallback then UpsertCallbacks(old(services), snapshot) else []
      ensures sessions == old(sessions) && routerConnections == old(routerConnections)
    {
      emitted, callbacks := [], [];
      for j := 0 to |snapshot|
        invariant services == Upserted(old(services), snapshot[..j])
        invariant intercepts == UpdatedIntercepts(old(intercepts), snapshot[..j], parsers)
        invariant emitted == UpsertEvents(old(services), snapshot[..j])
        invariant callbacks == if hasCallback then UpsertCallbacks(old(services), snapshot[..j]) else []
        invariant sessions == old(sessions) && routerConnections == old(routerConnections)
      {
        var s := snapshot[j];
        assert snapshot[..j + 1][..j] == snapshot[..j];
        var isChange := s.name in services;
        var valuesDiffer := isChange && services[s.name] != s;
        services := services[s.name := s];
        if isChange {
          emitted := emitted + [ServiceChanged(s)];
        } else {
          emitted := emitted + [ServiceAdded(s)];
        }
        if hasCallback {
          if isChange {
            if valuesDiffer {
              callbacks := callbacks + [ServiceChanged(s)];
            }
          } else {
            services := services[s.name := s];
            callbacks := callbacks + [ServiceAdded(s)];
          }
        }
        StoreIntercept(s, parsers);
      }
      assert snapshot[..|snapshot|] == snapshot;
      UpsertedKeyedByName(old(services), snapshot);
      InterceptsFollowServices(old(intercepts), old(services), snapshot, parsers);
    }

    /** The intercept step of the upsert pass for one service: the
        intercept.v1 config if it parses, else the client config translated;
        a parse error of the first, or neither config, stores nothing. */
    method StoreIntercept(s: ServiceDetail, parsers: ConfigParsers)
      modifies this
      ensures intercepts == match DerivedIntercept(s, parsers)
        case Some(rule) => old(intercepts)[s.name := rule]
        case None => old(intercepts)
      ensures services == old(services) && sessions == old(sessions) && routerConnections == old(routerConnections)
    {
      match parsers.intercept(s) {
        case ParseError =>
        case Present(config) =>
          intercepts := intercepts[s.name := Intercept(config, s)];
        case NotPresent =>
          match parsers.client(s) {
            case Present(client) =>
              intercepts := intercepts[s.name := Intercept(parsers.convert(client), s)];
            case _ =>
          }
      }
    }

    lemma DeletedIds(svcs: map<string, ServiceDetail>, ids: set<string>, order: seq<string>)
      requires Enumerates(order, svcs.Keys)
      ensures var deletes := RemovedInOrder(svcs, ids, order);
        (set j | 0 <= j < |deletes| :: svcs[deletes[j]].id) == set k | k in RemovedKeys(svcs, ids) :: svcs[k].id
    {
      RemovedOnce(svcs, ids, order);
    }

    lemma IdsOfAppended(svcs: map<string, ServiceDetail>, keys: seq<string>, key: string)
      requires forall j | 0 <= j < |keys| :: keys[j] in svcs
      requires key in svcs
      ensures (set j | 0 <= j < |keys + [key]| :: svcs[(keys + [key])[j]].id)
        == (set j | 0 <= j < |keys| :: svcs[keys[j]].id) + {svcs[key].id}
    {
      var ks := keys + [key];
      assert ks[|keys|] == key;
      forall j | 0 <= j < |keys| ensures ks[j] == keys[j] { }
    }

    lemma RemovalEventsAppended(svcs: map<string, ServiceDetail>, keys: seq<string>, key: string)
      requires forall j | 0 <= j < |keys| :: keys[j] in svcs
      requires key in svcs
      ensures RemovalEvents(svcs, keys + [key]) == RemovalEvents(svcs, keys) + [ServiceRemoved(svcs[key])]
    {
      assert (keys + [key])[..|keys|] == keys;
    }

    lemma ServiceSessionKeysOfAdded(cache: map<string, SessionDetail>, ids: set<string>, id: string)
      ensures SessionCache.DeleteServiceSessions(cache - SessionCache.ServiceSessionKeys(ids), id)
        == cache - SessionCache.ServiceSessionKeys(ids + {id})
    {
      assert SessionCache.ServiceSessionKeys(ids + {id})
        == SessionCache.ServiceSessionKeys(ids) + {SessionCache.SessionKey(id, Bind), SessionCache.SessionKey(id, Dial)};
    }

    /** GetServiceForAddr. `order` is the order in which the intercepts map
        is iterated; `matchScore` is intercept.Match. With no match the
        result is no service and score -1. Otherwise the score is the lowest
        match score of any rule, the service is that of a rule scoring it,
        and when the lowest score is positive no rule with that score belongs
        to a service whose name sorts before the one returned. */
    method GetServiceForAddr(network: string, hostname: string, port: Port,
                             matchScore: (Intercept, string, string, Port) -> Score, order: seq<string>)
      returns (svc: Option<ServiceDetail>, score: int)
      requires Enumerates(order, intercepts.Keys)
      ensures svc.None? <==> forall k | k in intercepts :: matchScore(intercepts[k], network, hostname, port) == -1
      ensures svc.None? ==> score == -1
      ensures svc.Some? ==> exists k | k in intercepts ::
        intercepts[k].service == svc.value && matchScore(intercepts[k], network, hostname, port) == score
      ensures svc.Some? ==> 0 <= score && forall k | k in intercepts && matchScore(intercepts[k], network, hostname, port) != -1 ::
        score <= matchScore(intercepts[k], network, hostname, port)
      ensures svc.Some? && score > 0 ==> forall k | k in intercepts && matchScore(intercepts[k], network, hostname, port) == score ::
        !Less(intercepts[k].service.name, svc.value.name)
    {
      svc := None;
      score := MaxInt;
      var lowestFound := false;
      ghost var bestKey: string := "";
      var i := 0;
      while i < |order|
        invariant 0 <= i <= |order|
        invariant lowestFound ==> svc.Some? && score == 0
        invariant svc.None? ==> score == MaxInt
        invariant svc.None? ==> forall j | 0 <= j < i :: matchScore(intercepts[order[j]], network, hostname, port) == -1
        invariant svc.Some? ==> (bestKey in intercepts && intercepts[bestKey].service == svc.value
          && matchScore(intercepts[bestKey], network, hostname, port) == score)
        invariant svc.Some? ==> 0 <= score
        invariant !lowestFound ==> forall j | 0 <= j < i && matchScore(intercepts[order[j]], network, hostname, port) != -1 ::
          score <= matchScore(intercepts[order[j]], network, hostname, port)
        invariant !lowestFound && svc.Some? ==> forall j | 0 <= j < i && matchScore(intercepts[order[j]], network, hostname, port) != -1 ::
          score < matchScore(intercepts[order[j]], network, hostname, port) || !Less(intercepts[order[j]].service.name, svc.value.name)
      {
        if !lowestFound {
          var rule := intercepts[order[i]];
          var sc := matchScore(rule, network, hostname, port);
          if sc != -1 {
            if score > sc {
              score := sc;
              svc := Some(rule.service);
              bestKey := order[i];
              LessIrreflexive(rule.service.name);
            } else if score == sc && Less(rule.service.name, svc.value.name) {
              forall j | 0 <= j < i && matchScore(intercepts[order[j]], network, hostname, port) == score
                ensures !Less(intercepts[order[j]].service.name, rule.service.name)
              {
                if Less(intercepts[order[j]].service.name, rule.service.name) {
                  LessTransitive(intercepts[order[j]].service.name, rule.service.name, svc.value.name);
                }
              }
              score := sc;
              svc := Some(rule.service);
              bestKey := order[i];
              LessIrreflexive(rule.service.name);
            }
            if sc == 0 {
              lowestFound := true;
            }
          }
        }
        i := i + 1;
      }
      if svc.None? {
        return None, -1;
      }
      forall k | k in intercepts
        ensures exists j | 0 <= j < |order| :: order[j] == k
      {
      }
    }

    // ---------------------------------------------------------------------
    // Session cache

    /** deleteServiceSessions. */
    method DeleteServiceSessions(serviceId: string)
      requires Valid()
      modifies this`sessions
      ensures Valid()
      ensures sessions == SessionCache.DeleteServiceSessions(old(sessions), serviceId)
      ensures services == old(services) && intercepts == old(intercepts) && routerConnections == old(routerConnections)
    {
      sessions := sessions - {SessionCache.SessionKey(serviceId, Bind), SessionCache.SessionKey(serviceId, Dial)};
    }

    /** cacheSession. */
    method CacheSession(op: SessionCache.CacheOp, session: SessionDetail)
      requires Valid()
      modifies this
      ensures Valid()
      ensures sessions == SessionCache.CacheSession(old(sessions), op, session)
      ensures services == old(services) && intercepts == old(intercepts) && routerConnections == old(routerConnections)
    {
      var key := SessionCache.SessionKey(session.serviceId, session.sessionType);
      if session.sessionType == Dial {
        match op {
          case Create =>
            sessions := sessions[key := session];
          case Refresh =>
            sessions := sessions[key := session];
        }
      }
      SessionCache.CacheSessionKeepsDiscipline(old(sessions), op, session);
    }

    /** getOrCreateSession. `reply` is what CreateSession answers if it is
        called. A dial request whose key is cached returns the cached session,
        which belongs to that service and is a dial session, without calling
        CreateSession; every other request calls it, returns its answer and
        caches a successful answer. */
    method GetOrCreateSession(serviceId: string, sessionType: SessionType, reply: SessionReply)
      returns (r: SessionReply, createCalled: bool)
      requires Valid()
      modifies this
      ensures Valid()
      ensures services == old(services) && intercepts == old(intercepts) && routerConnections == old(routerConnections)
      ensures var key := SessionCache.SessionKey(serviceId, Dial);
        if sessionType == Dial && key in old(sessions) then
          && !createCalled && r == Found(old(sessions)[key]) && sessions == old(sessions)
          && r.session.serviceId == serviceId && r.session.sessionType == Dial
        else
          && createCalled && r == reply
          && sessions == (if reply.Found? then SessionCache.CacheSession(old(sessions), SessionCache.Create, reply.session) else old(sessions))
    {
      var key := SessionCache.SessionKey(serviceId, sessionType);
      if sessionType == Dial && key in sessions {
        var cached := sessions[key];
        SessionCache.SessionKeyInjective(cached.serviceId, Dial, serviceId, Dial);
        return Found(cached), false;
      }
      createCalled := true;
      r := reply;
      if reply.Found? {
        CacheSession(SessionCache.Create, reply.session);
      }
    }

    /** refreshSession. `reply` is what GetSession answers. */
    method RefreshSession(id: string, reply: SessionReply) returns (r: SessionReply)
      requires Valid()
      modifies this
      ensures Valid()
      ensures r == reply
      ensures sessions == (if reply.Found? then SessionCache.CacheSession(old(sessions), SessionCache.Refresh, reply.session) else old(sessions))
      ensures services == old(services) && intercepts == old(intercepts) && routerConnections == old(routerConnections)
    {
      r := reply;
      if reply.Found? {
        CacheSession(SessionCache.Refresh, reply.session);
      }
    }

    // ---------------------------------------------------------------------
    // Router connection pool

    /** OnClose: announce the disconnect and drop the connection's URL. */
    method OnClose(conn: RouterConn) returns (event: RouterEvent)
      requires Valid()
      modifies this
      ensures Valid()
      ensures event == RouterDisconnected(conn.name, conn.url)
      ensures routerConnections == old(routerConnections) - {conn.url}
      ensures services == old(services) && intercepts == old(intercepts) && sessions == old(sessions)
    {
      event := RouterDisconnected(conn.name, conn.url);
      routerConnections := routerConnections - {conn.url};
    }

    /** CloseAllEdgeRouterConns: close every pooled connection not yet closed
        and empty the pool. */
    method CloseAllEdgeRouterConns()
      requires Valid()
      modifies this, routerConnections.Values
      ensures Valid()
      ensures routerConnections == map[]
      ensures forall c | c in old(routerConnections).Values :: c.closed
      ensures services == old(services) && intercepts == old(intercepts) && sessions == old(sessions)
    {
      ghost var pool := routerConnections;
      var keys := routerConnections.Keys;
      while keys != {}
        invariant keys == routerConnections.Keys && keys <= pool.Keys
        invariant forall u | u in keys :: routerConnections[u] == pool[u]
        invariant forall u | u in pool && u !in keys :: pool[u].closed
        invariant services == old(services) && intercepts == old(intercepts) && sessions == old(sessions)
        invariant Valid()
        decreases |keys|
      {
        var u :| u in keys;
        var conn := routerConnections[u];
        if !conn.closed {
          conn.Close();
        }
        routerConnections := routerConnections - {u};
        keys := keys - {u};
      }
      forall c | c in pool.Values ensures c.closed {
        var u :| u in pool && pool[u] == c;
      }
    }

    /** The first step of connectEdgeRouter: an open pooled connection for the
        URL is the answer; a closed one is evicted. */
    method ReuseOrEvict(url: string) returns (pooled: Option<RouterConn>)
      requires Valid()
      modifies this
      ensures Valid()
      ensures url in old(routerConnections) && !old(routerConnections)[url].closed ==>
        pooled == Some(old(routerConnections)[url]) && routerConnections == old(routerConnections)
      ensures !(url in old(routerConnections) && !old(routerConnections)[url].closed) ==>
        pooled.None? && routerConnections == old(routerConnections) - {url}
      ensures services == old(services) && intercepts == old(intercepts) && sessions == old(sessions)
    {
      if url in routerConnections {
        var conn := routerConnections[url];
        if !conn.closed {
          return Some(conn);
        }
        routerConnections := routerConnections - {url};
      }
      pooled := None;
    }

    /** The upsert at the end of connectEdgeRouter, once `conn` is dialled: if
        a connection for its URL is pooled by now, that one is kept and `conn`
        is closed; otherwise `conn` is pooled. The connection to use is
        returned. */
    method UpsertRouterConn(conn: RouterConn) returns (used: RouterConn)
      requires Valid()
      modifies this, conn
      ensures Valid()
      ensures conn.url in old(routerConnections) ==>
        used == old(routerConnections)[conn.url] && routerConnections == old(routerConnections) && conn.closed
      ensures conn.url !in old(routerConnections) ==>
        used == conn && routerConnections == old(routerConnections)[conn.url := conn] && conn.closed == old(conn.closed)
      ensures used.url == conn.url
      ensures services == old(services) && intercepts == old(intercepts) && sessions == old(sessions)
    {
      if conn.url in routerConnections {
        used := routerConnections[conn.url];
        conn.Close();
      } else {
        routerConnections := routerConnections[conn.url := conn];
        used := conn;
      }
    }

    /** connectEdgeRouter for one router URL. `dialled` says whether parsing
        the address and opening the channel succeed. The result is the
        connection to use, or none on failure, with the notifications
        emitted. */
    method ConnectEdgeRouter(routerName: string, url: string, dialled: bool)
      returns (result: Option<RouterConn>, events: seq<RouterEvent>)
      requires Valid()
      modifies this
      ensures Valid()
      ensures url in old(routerConnections) && !old(routerConnections)[url].closed ==>
        result == Some(old(routerConnections)[url]) && events == [] && routerConnections == old(routerConnections)
      ensures !(url in old(routerConnections) && !old(routerConnections)[url].closed) && !dialled ==>
        result.None? && events == [] && routerConnections == old(routerConnections) - {url}
      ensures !(url in old(routerConnections) && !old(routerConnections)[url].closed) && dialled ==>
        && result.Some? && fresh(result.value) && result.value.name == routerName && result.value.url == url
        && events == [RouterConnected(routerName, url)]
        && routerConnections == (old(routerConnections) - {url})[url := result.value]
      ensures services == old(services) && intercepts == old(intercepts) && sessions == old(sessions)
    {
      var pooled := ReuseOrEvict(url);
      if pooled.Some? {
        return pooled, [];
      }
      if !dialled {
        return None, [];
      }
      var conn := new RouterConn(routerName, url);
      events := [RouterConnected(routerName, url)];
      var used := UpsertRouterConn(conn);
      result := Some(used);
    }

    /** Two dials of the same URL in flight at once: both miss the pool, both
        connect, and the one that reaches the upsert second is closed in
        favour of the first. One connection per URL stays pooled. */
    method DialRace(url: string, first: RouterConn, second: RouterConn) returns (usedFirst: RouterConn, usedSecond: RouterConn)
      requires Valid()
      requires url !in routerConnections
      requires first.url == url && second.url == url && first != second && !first.closed
      modifies this, first, second
      ensures Valid()
      ensures usedFirst == first && usedSecond == first && second.closed && !first.closed
      ensures routerConnections == old(routerConnections)[url := first]
    {
      var missA := ReuseOrEvict(url);
      var missB := ReuseOrEvict(url);
      usedFirst := UpsertRouterConn(first);
      usedSecond := UpsertRouterConn(second);
    }

    /** The selection step of getEdgeRouterConn over the session's routers.
        `latency` is the mean of each URL's latency histogram and `accepted`
        is isEdgeRouterUrlAccepted. The best pooled connection is one with
        the lowest latency below MaxInt64 among the session's pooled URLs,
        none exactly when there is no such URL; the dials launched are those
        of the accepted URLs of every router with an unpooled URL. */
    method SelectEdgeRouter(routers: seq<EdgeRouter>, latency: string -> int, accepted: string -> bool)
      returns (best: Option<RouterConn>, bestLatency: int, dials: seq<RouterDial>)
      ensures best.None? <==> NoUsableConn(routerConnections, SessionUrls(routers), latency)
      ensures best.None? ==> bestLatency == MaxInt64
      ensures best.Some? ==> LowestLatency(routerConnections, SessionUrls(routers), latency, best.value, bestLatency)
      ensures dials == DialsFor(Unconnected(routers, routerConnections.Keys), accepted)
    {
      var unconnected: seq<EdgeRouter>;
      best, bestLatency, unconnected := ScanPooled(routers, latency);
      dials := DialUnconnected(unconnected, accepted);
    }

    /** The first scan of the selection step: over every URL of every router,
        keep the pooled connection with the strictly lowest latency seen, and
        list the router once for each of its URLs that is not pooled. */
    method ScanPooled(routers: seq<EdgeRouter>, latency: string -> int)
      returns (best: Option<RouterConn>, bestLatency: int, unconnected: seq<EdgeRouter>)
      ensures SelectionSoFar(routerConnections, SessionUrls(routers), latency, best, bestLatency)
      ensures unconnected == Unconnected(routers, routerConnections.Keys)
    {
      var pooled := routerConnections.Keys;
      bestLatency := MaxInt64;
      best := None;
      unconnected := [];
      var i := 0;
      while i < |routers|
        invariant 0 <= i <= |routers|
        invariant unconnected == Unconnected(routers[..i], pooled)
        invariant SelectionSoFar(routerConnections, SessionUrls(routers[..i]), latency, best, bestLatency)
      {
        var r := routers[i];
        assert routers[..i + 1][..i] == routers[..i];
        var copies: seq<EdgeRouter>;
        best, bestLatency, copies := ScanRouterUrls(r, SessionUrls(routers[..i]), best, bestLatency, latency);
        unconnected := unconnected + copies;
        SessionUrlsOfPrefix(routers, i);
        i := i + 1;
      }
      assert routers[..|routers|] == routers;
    }

    /** The inner loop of the first scan, over one router's URLs. */
    method ScanRouterUrls(r: EdgeRouter, ghost seen: set<string>, best0: Option<RouterConn>, latency0: int, latency: string -> int)
      returns (best: Option<RouterConn>, bestLatency: int, copies: seq<EdgeRouter>)
      requires SelectionSoFar(routerConnections, seen, latency, best0, latency0)
      ensures SelectionSoFar(routerConnections, seen + (set k | 0 <= k < |r.urls| :: r.urls[k]), latency, best, bestLatency)
      ensures copies == UnpooledCopies(r, r.urls, routerConnections.Keys)
    {
      best, bestLatency, copies := best0, latency0, [];
      var j := 0;
      while j < |r.urls|
        invariant 0 <= j <= |r.urls|
        invariant copies == UnpooledCopies(r, r.urls[..j], routerConnections.Keys)
        invariant SelectionSoFar(routerConnections, seen + (set k | 0 <= k < j :: r.urls[k]), latency, best, bestLatency)
      {
        var u := r.urls[j];
        assert r.urls[..j + 1][..j] == r.urls[..j];
        ghost var visited := seen + (set k | 0 <= k < j :: r.urls[k]);
        assert seen + (set k | 0 <= k < j + 1 :: r.urls[k]) == visited + {u};
        if u in routerConnections {
          SelectionVisitPooled(routerConnections, visited, latency, best, bestLatency, u);
          if latency(u) < bestLatency {
            bestLatency := latency(u);
            best := Some(routerConnections[u]);
          }
        } else {
          SelectionVisitUnpooled(routerConnections, visited, latency, best, bestLatency, u);
          copies := copies + [r];
        }
        j := j + 1;
      }
      assert r.urls[..|r.urls|] == r.urls;
    }

    /** The second scan of the selection step: a dial for every accepted URL
        of every listed router, in order. */
    static method DialUnconnected(unconnected: seq<EdgeRouter>, accepted: string -> bool) returns (dials: seq<RouterDial>)
      ensures dials == DialsFor(unconnected, accepted)
    {
      dials := [];
      var n := 0;
      while n < |unconnected|
        invariant 0 <= n <= |unconnected|
        invariant dials == DialsFor(unconnected[..n], accepted)
      {
        var r := unconnected[n];
        assert unconnected[..n + 1][..n] == unconnected[..n];
        var j := 0;
        while j < |r.urls|
          invariant 0 <= j <= |r.urls|
          invariant dials == DialsFor(unconnected[..n], accepted) + AcceptedDials(r.name, r.urls[..j], accepted)
        {
          assert r.urls[..j + 1][..j] == r.urls[..j];
          if accepted(r.urls[j]) {
            dials := dials + [RouterDial(r.name, r.urls[j])];
          }
          j := j + 1;
        }
        assert r.urls[..|r.urls|] == r.urls;
        n := n + 1;
      }
      assert unconnected[..|unconnected|] == unconnected;
    }

    /** getEdgeRouterConn up to the wait for dials. `reply` is the answer to
        refreshing `session`. A refresh that fails fails the call, and a
        "not found" also drops the session's cache key; a refreshed session
        without edge routers fails it too. Otherwise the selection step runs
        over the refreshed session's routers: a pooled connection is picked
        if there is one, else the call waits for the dials. */
    method GetEdgeRouterConn(session: SessionDetail, reply: SessionReply, latency: string -> int, accepted: string -> bool)
      returns (outcome: Acquired, dials: seq<RouterDial>)
      requires Valid()
      modifies this
      ensures Valid()
      ensures services == old(services) && intercepts == old(intercepts) && routerConnections == old(routerConnections)
      ensures !reply.Found? ==>
        && outcome == RefreshFailed(reply) && dials == []
        && sessions == (if reply.NotFound? then old(sessions) - {SessionCache.SessionKey(session.serviceId, session.sessionType)} else old(sessions))
      ensures reply.Found? ==> sessions == SessionCache.CacheSession(old(sessions), SessionCache.Refresh, reply.session)
      ensures reply.Found? && |reply.session.edgeRouters| == 0 ==> outcome == NoEdgeRouters && dials == []
      ensures reply.Found? && |reply.session.edgeRouters| > 0 ==>
        var routers := reply.session.edgeRouters;
        && (outcome.Selected? || outcome.AwaitingDials?)
        && (outcome.AwaitingDials? <==> NoUsableConn(routerConnections, SessionUrls(routers), latency))
        && (outcome.Selected? ==> exists lat :: LowestLatency(routerConnections, SessionUrls(routers), latency, outcome.conn, lat))
        && dials == DialsFor(Unconnected(routers, routerConnections.Keys), accepted)
    {
      var refreshed := RefreshSession(session.id, reply);
      if !refreshed.Found? {
        if refreshed.NotFound? {
          sessions := sessions - {SessionCache.SessionKey(session.serviceId, session.sessionType)};
        }
        return RefreshFailed(refreshed), [];
      }
      var current := refreshed.session;
      if |current.edgeRouters| == 0 {
        return NoEdgeRouters, [];
      }
      var best, bestLatency, ds := SelectEdgeRouter(current.edgeRouters, latency, accepted);
      dials := ds;
      if best.Some? {
        outcome := Selected(best.value);
      } else {
        outcome := AwaitingDials;
      }
    }
  }
}
