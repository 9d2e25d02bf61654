/** The listener manager behind ContextImpl.listenSession: one bind session
    for a hosted service, kept refreshed, and a capped set of router
    connections with a listener on each. The run loop's select is left to the
    caller; each event it handles is a method here. Time is in nanoseconds. */
module Listener {
  import opened Wrappers
  import opened Types
  import opened RouterPool

  /** time.Second and time.Minute in nanoseconds. */
  const Second: int := 1_000_000_000
  const Minute: int := 60 * Second

  /** The options listenSession hands to the listener manager. */
  datatype ListenOptions = ListenOptions(
    cost: int,
    precedence: int,
    connectTimeout: int,
    maxConnections: int,
    identity: string,
    bindUsingEdgeIdentity: bool,
    manualStart: bool)

  /** listenSession's defaults: a zero connect timeout becomes one minute and
      fewer than one connection becomes one; every other field is copied. */
  function WithListenDefaults(o: ListenOptions): (r: ListenOptions)
    ensures r.maxConnections >= 1 && r.connectTimeout != 0
    ensures o.connectTimeout == 0 ==> r.connectTimeout == Minute
    ensures o.connectTimeout != 0 ==> r.connectTimeout == o.connectTimeout
    ensures o.maxConnections < 1 ==> r.maxConnections == 1
    ensures o.maxConnections >= 1 ==> r.maxConnections == o.maxConnections
    ensures r.(connectTimeout := o.connectTimeout, maxConnections := o.maxConnections) == o
  {
    o.(connectTimeout := if o.connectTimeout == 0 then Minute else o.connectTimeout,
       maxConnections := if o.maxConnections < 1 then 1 else o.maxConnections)
  }

  // -----------------------------------------------------------------------
  // Session refresh

  /** The control plane's answers during one listenerManager.refreshSession:
      the first GetSession, whether EnsureAuthenticated succeeds, the second
      GetSession, and what createSessionWithBackoff yields. Only the answers
      the decision reaches are used. */
  datatype RefreshReplies = RefreshReplies(
    first: SessionReply,
    reauthenticated: bool,
    second: SessionReply,
    created: Option<SessionDetail>)

  /** What a refresh ends in: install a refreshed session, create a new one,
      or close the listener if it has no router connections. */
  datatype RefreshStep = Install(session: SessionDetail) | CreateNew | CloseIfIdle

  /** The decision tree of listenerManager.refreshSession. A refreshed session
      carries no token, so the current session's token is copied into it. */
  function RefreshDecision(current: Option<SessionDetail>, rp: RefreshReplies): RefreshStep
  {
    if current.None? then CreateNew
    else match rp.first
      case Found(s) => Install(s.(token := current.value.token))
      case NotFound => CreateNew
      case _ =>
        if rp.first.Unauthorized? && !rp.reauthenticated then CloseIfIdle
        else match rp.second
          case Found(s) => Install(s.(token := current.value.token))
          case Unauthorized => CloseIfIdle
          case _ => CreateNew
  }

  /** The session-related part of the listener manager's state. */
  datatype SessionState = SessionState(session: Option<SessionDetail>, refreshTime: int, closed: bool)

  /** listenerManager.createSessionWithBackoff: a session obtained is
      installed and stamped; none leaves everything as it was. */
  function AfterCreate(st: SessionState, created: Option<SessionDetail>, now: int): SessionState
  {
    if created.Some? then st.(session := created, refreshTime := now) else st
  }

  /** The state after listenerManager.refreshSession; `idle` says the manager
      has no router connections. */
  function AfterRefresh(st: SessionState, rp: RefreshReplies, now: int, idle: bool): SessionState
  {
    match RefreshDecision(st.session, rp)
    case Install(s) => st.(session := Some(s), refreshTime := now)
    case CreateNew => AfterCreate(st, rp.created, now)
    case CloseIfIdle => st.(closed := st.closed || idle)
  }

  /** A successful refresh installs the session the control plane returned,
      with its edge routers, and the token of the session it replaces. */
  lemma RefreshBackfillsToken(current: SessionDetail, rp: RefreshReplies)
    requires RefreshDecision(Some(current), rp).Install?
    ensures var s := RefreshDecision(Some(current), rp).session;
      && s.token == current.token
      && ((rp.first.Found? && s == rp.first.session.(token := current.token))
          || (rp.second.Found? && s == rp.second.session.(token := current.token)))
  {
  }

  /** A refresh closes the listener only when it has no connections, and only
      on an "unauthorized" answer that re-authenticating does not cure, or on
      an "unauthorized" answer to the second lookup. */
  lemma RefreshClosesOnlyWhenUnauthorized(st: SessionState, rp: RefreshReplies, now: int, idle: bool)
    ensures AfterRefresh(st, rp, now, idle).closed && !st.closed ==>
      && idle && st.session.Some? && !rp.first.Found? && !rp.first.NotFound?
      && ((rp.first.Unauthorized? && !rp.reauthenticated) || rp.second.Unauthorized?)
  {
  }

  /** A refresh never drops a session it has. */
  lemma RefreshKeepsASession(st: SessionState, rp: RefreshReplies, now: int, idle: bool)
    ensures st.session.Some? ==> AfterRefresh(st, rp, now, idle).session.Some?
    ensures AfterRefresh(st, rp, now, idle).session.None? ==> st.session.None? && rp.created.None?
  {
  }

  // -----------------------------------------------------------------------
  // makeMoreListeners

  /** There is no session, or it lists no edge routers and nothing is
      connected: makeMoreListeners then checks the timeout and polls. */
  predicate NeedsPolling(session: Option<SessionDetail>, connected: int)
  {
    session.None? || (|session.value.edgeRouters| == 0 && connected == 0)
  }

  /** The state after the first half of makeMoreListeners: nothing on a
      closed listener; otherwise, when polling is needed, close once the
      disconnection has outlasted the connect timeout, else refresh when the
      last refresh is more than a second old. */
  function AfterPoll(st: SessionState, disconnected: Option<int>, connected: int, timeout: int, rp: RefreshReplies, now: int): (r: SessionState)
    requires !st.closed && NeedsPolling(st.session, connected) ==> disconnected.Some?
  {
    if st.closed || !NeedsPolling(st.session, connected) then st
    else if disconnected.value + timeout < now then st.(closed := true)
    else if st.refreshTime + Second < now then AfterRefresh(st, rp, now, connected == 0)
    else st
  }

  /** The guard of makeMoreListeners' dialling step. */
  predicate CanDial(st: SessionState, connected: int, maxConnections: int)
  {
    && !st.closed && st.session.Some?
    && connected < maxConnections
    && |st.session.value.edgeRouters| > connected
  }

  /** The URLs of a list of dials. */
  function DialUrls(dials: seq<RouterDial>): set<string>
  {
    set i | 0 <= i < |dials| :: dials[i].url
  }

  /** The dials makeMoreListeners launches for one router not yet connected:
      each accepted URL that has no connect in progress, the ones it launches
      itself included. */
  function UrlLaunches(name: string, urls: seq<string>, accepted: string -> bool, pending: set<string>): seq<RouterDial>
  {
    if |urls| == 0 then []
    else
      var init := UrlLaunches(name, urls[..|urls| - 1], accepted, pending);
      var u := urls[|urls| - 1];
      init + (if accepted(u) && u !in pending && u !in DialUrls(init) then [RouterDial(name, u)] else [])
  }

  /** The dials of makeMoreListeners' dialling step over the session's routers;
      `connected` are the names of the routers with a connection, `pending`
      the URLs with a connect in progress. */
  function ListenerDials(routers: seq<EdgeRouter>, connected: set<string>, accepted: string -> bool, pending: set<string>): seq<RouterDial>
  {
    if |routers| == 0 then []
    else
      var init := ListenerDials(routers[..|routers| - 1], connected, accepted, pending);
      var r := routers[|routers| - 1];
      init + (if r.name in connected then [] else UrlLaunches(r.name, r.urls, accepted, pending + DialUrls(init)))
  }

  lemma ListenerDialsStep(routers: seq<EdgeRouter>, i: nat, connected: set<string>, accepted: string -> bool, pending: set<string>)
    requires i < |routers|
    ensures var init := ListenerDials(routers[..i], connected, accepted, pending);
      ListenerDials(routers[..i + 1], connected, accepted, pending)
        == init + (if routers[i].name in connected then [] else UrlLaunches(routers[i].name, routers[i].urls, accepted, pending + DialUrls(init)))
  {
    assert routers[..i + 1][..i] == routers[..i];
  }

  lemma UrlLaunchesStep(name: string, urls: seq<string>, j: nat, accepted: string -> bool, pending: set<string>)
    requires j < |urls|
    ensures var init := UrlLaunches(name, urls[..j], accepted, pending);
      UrlLaunches(name, urls[..j + 1], accepted, pending)
        == init + (if accepted(urls[j]) && urls[j] !in pending && urls[j] !in DialUrls(init) then [RouterDial(name, urls[j])] else [])
  {
    assert urls[..j + 1][..j] == urls[..j];
  }

  /** One turn of the URL loop of the dialling step, after the dials
      `before` of earlier routers and the launches for `urls[..j]`: the URL is
      launched exactly when it is accepted and not yet in `connects`, and the
      stamped map grows by that URL alone. */
  lemma LaunchStep(start: map<string, int>, before: seq<RouterDial>, name: string, urls: seq<string>, j: nat,
                   accepted: string -> bool, now: int)
    requires j < |urls|
    ensures var pending := start.Keys + DialUrls(before);
      var d := before + UrlLaunches(name, urls[..j], accepted, pending);
      var x := RouterDial(name, urls[j]);
      && (accepted(urls[j]) && urls[j] !in Stamped(start, d, now) ==>
            before + UrlLaunches(name, urls[..j + 1], accepted, pending) == d + [x]
            && Stamped(start, d + [x], now) == Stamped(start, d, now)[urls[j] := now])
      && (!(accepted(urls[j]) && urls[j] !in Stamped(start, d, now)) ==>
            before + UrlLaunches(name, urls[..j + 1], accepted, pending) == d)
  {
    var pending := start.Keys + DialUrls(before);
    var launched := UrlLaunches(name, urls[..j], accepted, pending);
    var d := before + launched;
    var x := RouterDial(name, urls[j]);
    UrlLaunchesStep(name, urls, j, accepted, pending);
    DialUrlsAppend(before, launched);
    StampedAppend(start, d, x, now);
    assert before + (launched + [x]) == d + [x];
    assert before + (launched + []) == d;
  }

  lemma DialUrlsAppend(a: seq<RouterDial>, b: seq<RouterDial>)
    ensures DialUrls(a + b) == DialUrls(a) + DialUrls(b)
  {
    forall u | u in DialUrls(a + b) ensures u in DialUrls(a) + DialUrls(b) {
      var i :| 0 <= i < |a + b| && (a + b)[i].url == u;
      if i >= |a| {
        assert b[i - |a|].url == u;
      }
    }
    forall u | u in DialUrls(a) ensures u in DialUrls(a + b) {
      var i :| 0 <= i < |a| && a[i].url == u;
      assert (a + b)[i] == a[i];
    }
    forall u | u in DialUrls(b) ensures u in DialUrls(a + b) {
      var i :| 0 <= i < |b| && b[i].url == u;
      assert (a + b)[|a| + i] == b[i];
    }
  }

  /** No URL occurs twice among the dials. */
  predicate DistinctUrls(d: seq<RouterDial>)
  {
    forall i, j | 0 <= i < j < |d| :: d[i].url != d[j].url
  }

  lemma DistinctUrlsAppend(a: seq<RouterDial>, b: seq<RouterDial>)
    requires DistinctUrls(a) && DistinctUrls(b)
    requires forall x | x in b :: x.url !in DialUrls(a)
    ensures DistinctUrls(a + b)
  {
    forall i, j | 0 <= i < j < |a + b| ensures (a + b)[i].url != (a + b)[j].url {
      if j < |a| {
        assert (a + b)[i] == a[i] && (a + b)[j] == a[j];
      } else if i < |a| {
        assert (a + b)[i] == a[i] && (a + b)[j] == b[j - |a|];
        assert b[j - |a|] in b;
      } else {
        assert (a + b)[i] == b[i - |a|] && (a + b)[j] == b[j - |a|];
      }
    }
  }

  /** `connects` after recording each dialled URL at `now`. */
  function Stamped(start: map<string, int>, d: seq<RouterDial>, now: int): map<string, int>
  {
    start + map u | u in DialUrls(d) :: now
  }

  lemma StampedAppend(start: map<string, int>, d: seq<RouterDial>, x: RouterDial, now: int)
    ensures Stamped(start, d + [x], now) == Stamped(start, d, now)[x.url := now]
    ensures Stamped(start, d, now).Keys == start.Keys + DialUrls(d)
  {
    DialUrlsAppend(d, [x]);
    assert [x][0] == x;
    assert DialUrls([x]) == {x.url};
  }

  /** One router's launches are accepted URLs of that router with no connect
      in progress. */
  lemma {:induction false} UrlLaunchesSound(name: string, urls: seq<string>, accepted: string -> bool, pending: set<string>)
    ensures forall x | x in UrlLaunches(name, urls, accepted, pending) ::
      x.routerName == name && x.url in urls && accepted(x.url) && x.url !in pending
  {
    if |urls| > 0 {
      var n := |urls| - 1;
      UrlLaunchesSound(name, urls[..n], accepted, pending);
      forall x | x in UrlLaunches(name, urls[..n], accepted, pending) ensures x.url in urls {
        assert x.url in urls[..n];
      }
    }
  }

  /** One router's launches never repeat a URL. */
  lemma {:induction false} UrlLaunchesDistinct(name: string, urls: seq<string>, accepted: string -> bool, pending: set<string>)
    ensures DistinctUrls(UrlLaunches(name, urls, accepted, pending))
  {
    if |urls| > 0 {
      var n := |urls| - 1;
      var init := UrlLaunches(name, urls[..n], accepted, pending);
      var u := urls[n];
      UrlLaunchesDistinct(name, urls[..n], accepted, pending);
      var tail := if accepted(u) && u !in pending && u !in DialUrls(init) then [RouterDial(name, u)] else [];
      DistinctUrlsAppend(init, tail);
    }
  }

  /** Every accepted URL of the router with no connect in progress is launched. */
  lemma {:induction false} UrlLaunchesComplete(name: string, urls: seq<string>, accepted: string -> bool, pending: set<string>, u: string)
    requires u in urls && accepted(u) && u !in pending
    ensures u in DialUrls(UrlLaunches(name, urls, accepted, pending))
  {
    var n := |urls| - 1;
    var init := UrlLaunches(name, urls[..n], accepted, pending);
    var tail := if accepted(urls[n]) && urls[n] !in pending && urls[n] !in DialUrls(init) then [RouterDial(name, urls[n])] else [];
    DialUrlsAppend(init, tail);
    if u in urls[..n] {
      UrlLaunchesComplete(name, urls[..n], accepted, pending, u);
    } else {
      assert u == urls[n];
      if u !in DialUrls(init) {
        assert tail[0].url == u;
      }
    }
  }

  /** `x` is an accepted URL, with no connect in progress, of a session router
      that has no connection, dialled under that router's name. */
  ghost predicate SoundDial(routers: seq<EdgeRouter>, connected: set<string>, accepted: string -> bool, pending: set<string>, x: RouterDial)
  {
    && accepted(x.url) && x.url !in pending
    && exists k | 0 <= k < |routers| ::
         routers[k].name == x.routerName && routers[k].name !in connected && x.url in routers[k].urls
  }

  /** Each dial of makeMoreListeners' dialling step is a sound one. */
  lemma {:induction false} ListenerDialsSound(routers: seq<EdgeRouter>, connected: set<string>, accepted: string -> bool, pending: set<string>)
    ensures forall x | x in ListenerDials(routers, connected, accepted, pending) ::
      SoundDial(routers, connected, accepted, pending, x)
  {
    if |routers| > 0 {
      var n := |routers| - 1;
      var r := routers[n];
      var init := ListenerDials(routers[..n], connected, accepted, pending);
      ListenerDialsSound(routers[..n], connected, accepted, pending);
      UrlLaunchesSound(r.name, r.urls, accepted, pending + DialUrls(init));
      forall x | x in ListenerDials(routers, connected, accepted, pending)
        ensures SoundDial(routers, connected, accepted, pending, x)
      {
        if x in init {
          assert SoundDial(routers[..n], connected, accepted, pending, x);
          var k :| 0 <= k < n && routers[..n][k].name == x.routerName
            && routers[..n][k].name !in connected && x.url in routers[..n][k].urls;
          assert routers[k] == routers[..n][k];
        } else {
          assert routers[n] == r;
        }
      }
    }
  }

  /** makeMoreListeners' dialling step never dials a URL twice. */
  lemma {:induction false} ListenerDialsDistinct(routers: seq<EdgeRouter>, connected: set<string>, accepted: string -> bool, pending: set<string>)
    ensures DistinctUrls(ListenerDials(routers, connected, accepted, pending))
  {
    if |routers| > 0 {
      var n := |routers| - 1;
      var r := routers[n];
      var init := ListenerDials(routers[..n], connected, accepted, pending);
      ListenerDialsDistinct(routers[..n], connected, accepted, pending);
      if r.name !in connected {
        UrlLaunchesSound(r.name, r.urls, accepted, pending + DialUrls(init));
        UrlLaunchesDistinct(r.name, r.urls, accepted, pending + DialUrls(init));
        DistinctUrlsAppend(init, UrlLaunches(r.name, r.urls, accepted, pending + DialUrls(init)));
      } else {
        assert ListenerDials(routers, connected, accepted, pending) == init + [];
      }
    }
  }

  /** makeMoreListeners' dialling step dials every accepted URL, with no
      connect in progress, of every session router without a connection. */
  lemma {:induction false} ListenerDialsComplete(routers: seq<EdgeRouter>, connected: set<string>, accepted: string -> bool, pending: set<string>, k: nat, u: string)
    requires k < |routers| && routers[k].name !in connected && u in routers[k].urls && accepted(u) && u !in pending
    ensures u in DialUrls(ListenerDials(routers, connected, accepted, pending))
  {
    var n := |routers| - 1;
    var r := routers[n];
    var init := ListenerDials(routers[..n], connected, accepted, pending);
    var tail := if r.name in connected then [] else UrlLaunches(r.name, r.urls, accepted, pending + DialUrls(init));
    DialUrlsAppend(init, tail);
    if k < n {
      assert routers[..n][k] == routers[k];
      ListenerDialsComplete(routers[..n], connected, accepted, pending, k, u);
    } else if u !in DialUrls(init) {
      UrlLaunchesComplete(r.name, r.urls, accepted, pending + DialUrls(init), u);
    }
  }

  // -----------------------------------------------------------------------
  // The listener manager

  class ListenerManager {
    const service: ServiceDetail
    const options: ListenOptions
    var session: Option<SessionDetail>
    /** Router connections with a listener, by router name. */
    var routerConnections: map<string, RouterConn>
    /** Router URLs with a connect in progress, and when it started. */
    var connects: map<string, int>
    var sessionRefreshTime: int
    var disconnectedTime: Option<int>
    /** Whether the multi-listener is closed. */
    var closed: bool

    /** The redundancy cap: at most MaxConnections router connections, and
        room for at least one. Every handler keeps it. */
    ghost predicate Capped()
      reads this
    {
      && options.maxConnections >= 1
      && |routerConnections| <= options.maxConnections
    }

    /** A disconnection time whenever there is no session or no connection:
        makeMoreListeners reads it then. */
    ghost predicate HasStamp()
      reads this
    {
      (session.None? || routerConnections == map[]) ==> disconnectedTime.Some?
    }

    function State(): SessionState
      reads this
    {
      SessionState(session, sessionRefreshTime, closed)
    }

    /** The next makeMoreListeners would dereference a nil disconnectedTime. */
    ghost predicate WouldDereferenceNil()
      reads this
    {
      !closed && NeedsPolling(session, |routerConnections|) && disconnectedTime.None?
    }

    /** newListenerManager: no session or connections yet, disconnected since
        `now`, and never refreshed (Go's zero time). */
    constructor (service: ServiceDetail, options: ListenOptions, now: int)
      requires options.maxConnections >= 1
      ensures Capped() && HasStamp()
      ensures this.service == service && this.options == options
      ensures session.None? && routerConnections == map[] && connects == map[]
      ensures sessionRefreshTime == 0 && disconnectedTime == Some(now) && !closed
    {
      this.service := service;
      this.options := options;
      session := None;
      routerConnections := map[];
      connects := map[];
      sessionRefreshTime := 0;
      disconnectedTime := Some(now);
      closed := false;
    }

    /** handleRouterConnectResult for a connect to `url` that yielded `conn`
        (none on failure). The URL is no longer pending either way; the
        connection is kept, and a listener started on it, only below the cap
        and when its router has none yet. */
    method HandleRouterConnectResult(url: string, conn: Option<RouterConn>) returns (listening: bool)
      requires Capped()
      modifies this
      ensures Capped()
      ensures old(HasStamp()) ==> HasStamp()
      ensures connects == old(connects) - {url}
      ensures listening <==>
        conn.Some? && |old(routerConnections)| < options.maxConnections && conn.value.name !in old(routerConnections)
      ensures routerConnections == if listening then old(routerConnections)[conn.value.name := conn.value] else old(routerConnections)
      ensures State() == old(State()) && disconnectedTime == old(disconnectedTime)
    {
      connects := connects - {url};
      listening := false;
      if conn.None? {
        return;
      }
      var c := conn.value;
      if |routerConnections| < options.maxConnections {
        if c.name !in routerConnections {
          routerConnections := routerConnections[c.name := c];
          listening := true;
        }
      }
    }

    /** listenerManager.createSessionWithBackoff; `created` is the session the
        backoff loop obtained, if any. */
    method CreateSessionWithBackoff(now: int, created: Option<SessionDetail>)
      requires Capped()
      modifies this
      ensures Capped()
      ensures old(HasStamp()) ==> HasStamp()
      ensures State() == AfterCreate(old(State()), created, now)
      ensures routerConnections == old(routerConnections) && connects == old(connects)
      ensures disconnectedTime == old(disconnectedTime)
    {
      if created.Some? {
        session := created;
        sessionRefreshTime := now;
      }
    }

    /** listenerManager.refreshSession. */
    method RefreshSession(now: int, rp: RefreshReplies)
      requires Capped()
      modifies this
      ensures Capped()
      ensures old(HasStamp()) ==> HasStamp()
      ensures State() == AfterRefresh(old(State()), rp, now, old(routerConnections) == map[])
      ensures routerConnections == old(routerConnections) && connects == old(connects)
      ensures disconnectedTime == old(disconnectedTime)
    {
      if session.None? {
        CreateSessionWithBackoff(now, rp.created);
        return;
      }
      var current := session.value;
      var refreshed: Option<SessionDetail> := None;
      if rp.first.Found? {
        refreshed := Some(rp.first.session);
      } else if rp.first.NotFound? {
        CreateSessionWithBackoff(now, rp.created);
        return;
      } else {
        if rp.first.Unauthorized? && !rp.reauthenticated {
          if routerConnections == map[] {
            closed := true;
          }
          return;
        }
        if rp.second.Found? {
          refreshed := Some(rp.second.session);
        } else if rp.second.Unauthorized? {
          if routerConnections == map[] {
            closed := true;
          }
          return;
        } else {
          CreateSessionWithBackoff(now, rp.created);
        }
      }
      if refreshed.Some? {
        session := Some(refreshed.value.(token := current.token));
        sessionRefreshTime := now;
      }
    }

    /** routerConnectionListenFailedEvent.handle: forget the router's
        connection, stamp the disconnection if none is left, then refresh the
        session (answers `first`) and run makeMoreListeners (whose own refresh,
        if it makes one, gets the answers `second`). */
    method RouterListenFailed(router: string, now: int, accepted: string -> bool, first: RefreshReplies, second: RefreshReplies)
      returns (dials: seq<RouterDial>)
      requires Capped() && (session.None? ==> disconnectedTime.Some?)
      modifies this
      ensures Capped() && HasStamp()
      ensures routerConnections == old(routerConnections) - {router}
      ensures disconnectedTime == if routerConnections == map[] then Some(now) else old(disconnectedTime)
      ensures State() == AfterPoll(AfterRefresh(old(State()), first, now, routerConnections == map[]),
                                   disconnectedTime, |routerConnections|, options.connectTimeout, second, now)
      ensures dials == if CanDial(State(), |routerConnections|, options.maxConnections)
        then ListenerDials(session.value.edgeRouters, routerConnections.Keys, accepted, old(connects).Keys)
        else []
      ensures connects == Stamped(old(connects), dials, now)
    {
      routerConnections := routerConnections - {router};
      if |routerConnections| == 0 {
        disconnectedTime := Some(now);
      }
      RefreshSession(now, first);
      dials := MakeMoreListeners(now, accepted, second);
    }

    /** listenSuccessEvent.handle as written: the disconnection stamp is
        cleared whatever the state. */
    method ListenSuccessAsWritten()
      requires Capped()
      modifies this`disconnectedTime
      ensures Capped()
      ensures disconnectedTime.None?
    {
      disconnectedTime := None;
    }

    /** listenSuccessEvent.handle as evidently intended: the stamp is cleared
        only while a session and a router connection exist, so makeMoreListeners
        always finds a stamp when it needs one. */
    method ListenSuccess()
      requires Capped()
      modifies this`disconnectedTime
      ensures Capped()
      ensures old(HasStamp()) ==> HasStamp()
      ensures disconnectedTime == if session.Some? && routerConnections != map[] then None else old(disconnectedTime)
    {
      if session.Some? && routerConnections != map[] {
        disconnectedTime := None;
      }
    }

    /** getSessionEvent.handle behind GetCurrentSession: no session once the
        listener is closed, else the current session. The five-second wait
        for the control loop is not modelled. */
    method GetCurrentSession() returns (s: Option<SessionDetail>)
      ensures closed ==> s.None?
      ensures !closed ==> s == session
    {
      if closed {
        return None;
      }
      s := session;
    }

    /** makeMoreListeners. `accepted` is isEdgeRouterUrlAccepted and `rp`
        answers the refresh it may make. The session state ends as AfterPoll
        says; then, if the dial guard holds, the dials are exactly
        ListenerDials over the session's routers, and each launched URL is
        recorded in `connects` at `now`. */
    method MakeMoreListeners(now: int, accepted: string -> bool, rp: RefreshReplies) returns (dials: seq<RouterDial>)
      requires Capped() && !WouldDereferenceNil()
      modifies this
      ensures Capped() && (old(HasStamp()) ==> HasStamp())
      ensures State() == AfterPoll(old(State()), old(disconnectedTime), |old(routerConnections)|, options.connectTimeout, rp, now)
      ensures routerConnections == old(routerConnections) && disconnectedTime == old(disconnectedTime)
      ensures dials == if CanDial(State(), |routerConnections|, options.maxConnections)
        then ListenerDials(session.value.edgeRouters, routerConnections.Keys, accepted, old(connects).Keys)
        else []
      ensures connects == Stamped(old(connects), dials, now)
    {
      PollSession(now, rp);
      if closed {
        return [];
      }
      dials := LaunchListeners(now, accepted);
    }

    /** The first half of makeMoreListeners: with no session, or no edge
        routers and no connection, close once disconnected for longer than
        the connect timeout, else refresh when the last refresh is over a
        second old. */
    method PollSession(now: int, rp: RefreshReplies)
      requires Capped() && !WouldDereferenceNil()
      modifies this
      ensures Capped() && (old(HasStamp()) ==> HasStamp())
      ensures State() == AfterPoll(old(State()), old(disconnectedTime), |old(routerConnections)|, options.connectTimeout, rp, now)
      ensures routerConnections == old(routerConnections) && disconnectedTime == old(disconnectedTime)
      ensures connects == old(connects)
    {
      if closed {
        return;
      }
      if session.None? || (|session.value.edgeRouters| == 0 && |routerConnections| == 0) {
        if disconnectedTime.value + options.connectTimeout < now {
          closed := true;
          return;
        }
        if sessionRefreshTime + Second < now {
          RefreshSession(now, rp);
        }
      }
    }

    /** The dialling step of makeMoreListeners. */
    method LaunchListeners(now: int, accepted: string -> bool) returns (dials: seq<RouterDial>)
      requires Capped()
      modifies this`connects
      ensures Capped()
      ensures dials == if CanDial(State(), |routerConnections|, options.maxConnections)
        then ListenerDials(session.value.edgeRouters, routerConnections.Keys, accepted, old(connects).Keys)
        else []
      ensures connects == Stamped(old(connects), dials, now)
      ensures State() == old(State()) && routerConnections == old(routerConnections)
      ensures disconnectedTime == old(disconnectedTime)
    {
      dials := [];
      if session.None? || closed || |routerConnections| >= options.maxConnections
         || |session.value.edgeRouters| <= |routerConnections| {
        assert DialUrls(dials) == {};
        return;
      }
      dials := DialRouters(session.value.edgeRouters, routerConnections.Keys, now, accepted);
    }

    /** The outer loop of the dialling step, over the session's routers;
        `connected` are the names of the routers with a connection. */
    method DialRouters(routers: seq<EdgeRouter>, connected: set<string>, now: int, accepted: string -> bool)
      returns (dials: seq<RouterDial>)
      modifies this`connects
      ensures dials == ListenerDials(routers, connected, accepted, old(connects).Keys)
      ensures connects == Stamped(old(connects), dials, now)
    {
      ghost var start := connects;
      dials := [];
      assert DialUrls(dials) == {};
      var i := 0;
      while i < |routers|
        invariant 0 <= i <= |routers|
        invariant dials == ListenerDials(routers[..i], connected, accepted, start.Keys)
        invariant connects == Stamped(start, dials, now)
      {
        var r := routers[i];
        ListenerDialsStep(routers, i, connected, accepted, start.Keys);
        if r.name !in connected {
          dials := LaunchRouter(r, now, accepted, dials, start);
        }
        i := i + 1;
      }
      assert routers[..|routers|] == routers;
    }

    /** The inner loop of the dialling step, over one unconnected router's
        URLs, after the dials `before` of the routers ahead of it; `start` is
        `connects` as it was when the dialling step began. */
    method LaunchRouter(r: EdgeRouter, now: int, accepted: string -> bool, before: seq<RouterDial>, ghost start: map<string, int>)
      returns (dials: seq<RouterDial>)
      requires connects == Stamped(start, before, now)
      modifies this`connects
      ensures dials == before + UrlLaunches(r.name, r.urls, accepted, start.Keys + DialUrls(before))
      ensures connects == Stamped(start, dials, now)
    {
      ghost var pending := start.Keys + DialUrls(before);
      dials := before;
      var j := 0;
      while j < |r.urls|
        invariant 0 <= j <= |r.urls|
        invariant dials == before + UrlLaunches(r.name, r.urls[..j], accepted, pending)
        invariant connects == Stamped(start, dials, now)
      {
        var u := r.urls[j];
        LaunchStep(start, before, r.name, r.urls, j, accepted, now);
        if accepted(u) && u !in connects {
          connects := connects[u := now];
          dials := dials + [RouterDial(r.name, u)];
        }
        j := j + 1;
      }
      assert r.urls[..|r.urls|] == r.urls;
    }
  }

  /** A listen-success event that reaches the control loop after the
      listen-failed event of the same connection, once a refresh has left the
      session without edge routers: the as-written handler leaves no
      disconnection stamp although nothing is connected, and the next
      makeMoreListeners dereferences the missing stamp. */
  method StaleListenSuccess() returns (m: ListenerManager)
    ensures m.Capped() && !m.HasStamp()
    ensures m.WouldDereferenceNil()
  {
    var url := "tls:er1:3022";
    var s0 := SessionDetail("session1", "svc1", Bind, Some("token"), [EdgeRouter("er1", [url])]);
    var options := WithListenDefaults(ListenOptions(0, 0, 0, 1, "", false, false));
    m := new ListenerManager(ServiceDetail("svc1", "hosted", map[], map[]), options, 0);
    m.CreateSessionWithBackoff(1, Some(s0));
    var conn := new RouterConn("er1", url);
    var listening := m.HandleRouterConnectResult(url, Some(conn));
    assert listening;
    var noRouters := RefreshReplies(Found(s0.(token := None, edgeRouters := [])), false, Failed, None);
    var dials := m.RouterListenFailed("er1", 2, u => true, noRouters, noRouters);
    assert m.session == Some(s0.(edgeRouters := []));
    m.ListenSuccessAsWritten();
  }

  /** The dials for a session with one unconnected router that has one URL. */
  lemma OneRouterDials(name: string, url: string, accepted: string -> bool, pending: set<string>)
    ensures ListenerDials([EdgeRouter(name, [url])], {}, accepted, pending)
      == if accepted(url) && url !in pending then [RouterDial(name, url)] else []
  {
    var routers := [EdgeRouter(name, [url])];
    assert routers[..0] == [];
    assert [url][..0] == [];
    assert DialUrls([]) == {};
    assert UrlLaunches(name, [], accepted, pending) == [];
    assert UrlLaunches(name, [url], accepted, pending)
      == if accepted(url) && url !in pending then [RouterDial(name, url)] else [];
    assert ListenerDials(routers[..0], {}, accepted, pending) == [];
    assert pending + DialUrls([]) == pending;
    assert ListenerDials(routers, {}, accepted, pending) == UrlLaunches(name, [url], accepted, pending);
  }

  /** A listener whose only router connection failed while the refresh kept
      the session's edge router: stamped, nothing connected or pending. */
  method ListenFailedKeepingRouters() returns (m: ListenerManager)
    ensures fresh(m) && m.Capped() && !m.closed
    ensures m.session == Some(SessionDetail("session1", "svc1", Bind, Some("token"), [EdgeRouter("er1", ["tls:er1:3022"])]))
    ensures m.routerConnections == map[] && m.connects == map[] && m.disconnectedTime == Some(2)
    ensures m.sessionRefreshTime == 2
  {
    var url := "tls:er1:3022";
    var s0 := SessionDetail("session1", "svc1", Bind, Some("token"), [EdgeRouter("er1", [url])]);
    var options := WithListenDefaults(ListenOptions(0, 0, 0, 1, "", false, false));
    m := new ListenerManager(ServiceDetail("svc1", "hosted", map[], map[]), options, 0);
    m.CreateSessionWithBackoff(1, Some(s0));
    var conn := new RouterConn("er1", url);
    var listening := m.HandleRouterConnectResult(url, Some(conn));
    assert listening && m.connects == map[];
    var sameRouters := RefreshReplies(Found(s0.(token := None)), false, Failed, None);
    OneRouterDials("er1", url, u => false, {});
    var redials := m.RouterListenFailed("er1", 2, u => false, sameRouters, sameRouters);
    assert redials == [];
    assert m.connects == map[] by {
      assert DialUrls(redials) == {};
    }
  }

  /** The same stale success while the session still lists edge routers is
      harmless: makeMoreListeners does not poll, so it never reads the missing
      stamp, and it dials the router again. */
  method StaleListenSuccessWithRouters() returns (m: ListenerManager, dials: seq<RouterDial>)
    ensures m.Capped() && !m.HasStamp()
    ensures dials == [RouterDial("er1", "tls:er1:3022")]
  {
    m := ListenFailedKeepingRouters();
    m.ListenSuccessAsWritten();
    OneRouterDials("er1", "tls:er1:3022", u => true, {});
    dials := m.MakeMoreListeners(3, u => true, RefreshReplies(Failed, false, Failed, None));
  }
}
