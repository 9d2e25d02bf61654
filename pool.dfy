/** The selection step of ContextImpl.getEdgeRouterConn, as functions of a
    session's edge routers and the URLs already in the router pool: which
    pooled connection is best, and which router URLs get dialled. */
module RouterPool {
  import opened Wrappers
  import opened Types

  /** math.MaxInt64, the starting "best latency". */
  const MaxInt64: int := 0x7fff_ffff_ffff_ffff

  /** One launched connectEdgeRouter call: the router's name and the URL. */
  datatype RouterDial = RouterDial(routerName: string, url: string)

  /** Every URL of every edge router of a session. */
  function SessionUrls(routers: seq<EdgeRouter>): set<string>
  {
    set i, u | 0 <= i < |routers| && u in routers[i].urls :: u
  }

  /** A router has a URL that is not pooled. */
  predicate HasUnpooledUrl(r: EdgeRouter, pooled: set<string>)
  {
    exists u | u in r.urls :: u !in pooled
  }

  /** The copies of `r` the scan of `urls` appends to `unconnected`: one for
      each URL that has no pooled connection. */
  function UnpooledCopies(r: EdgeRouter, urls: seq<string>, pooled: set<string>): seq<EdgeRouter>
  {
    if |urls| == 0 then []
    else
      UnpooledCopies(r, urls[..|urls| - 1], pooled)
        + (if urls[|urls| - 1] in pooled then [] else [r])
  }

  /** The `unconnected` list the first scan builds. */
  function Unconnected(routers: seq<EdgeRouter>, pooled: set<string>): seq<EdgeRouter>
  {
    if |routers| == 0 then []
    else
      var r := routers[|routers| - 1];
      Unconnected(routers[..|routers| - 1], pooled) + UnpooledCopies(r, r.urls, pooled)
  }

  /** The dials the second scan launches for one router: its accepted URLs. */
  function AcceptedDials(name: string, urls: seq<string>, accepted: string -> bool): seq<RouterDial>
  {
    if |urls| == 0 then []
    else
      AcceptedDials(name, urls[..|urls| - 1], accepted)
        + (if accepted(urls[|urls| - 1]) then [RouterDial(name, urls[|urls| - 1])] else [])
  }

  /** The dials the second scan launches over a list of routers. */
  function DialsFor(routers: seq<EdgeRouter>, accepted: string -> bool): seq<RouterDial>
  {
    if |routers| == 0 then []
    else
      var r := routers[|routers| - 1];
      DialsFor(routers[..|routers| - 1], accepted) + AcceptedDials(r.name, r.urls, accepted)
  }

  /** No pooled URL among `urls` has a latency below MaxInt64. */
  ghost predicate NoUsableConn(pool: map<string, RouterConn>, urls: set<string>, latency: string -> int)
  {
    forall u | u in urls && u in pool :: latency(u) >= MaxInt64
  }

  /** `c` is pooled under one of `urls` with latency `lat` below MaxInt64, and
      no pooled URL among `urls` has a lower latency. */
  ghost predicate LowestLatency(pool: map<string, RouterConn>, urls: set<string>, latency: string -> int, c: RouterConn, lat: int)
  {
    && lat < MaxInt64
    && (exists u | u in urls && u in pool :: pool[u] == c && latency(u) == lat)
    && (forall u | u in urls && u in pool :: lat <= latency(u))
  }

  /** The state of the latency scan after it has looked at the URLs `urls`. */
  ghost predicate SelectionSoFar(pool: map<string, RouterConn>, urls: set<string>, latency: string -> int, best: Option<RouterConn>, lat: int)
  {
    && (best.None? ==> lat == MaxInt64 && NoUsableConn(pool, urls, latency))
    && (best.Some? ==> LowestLatency(pool, urls, latency, best.value, lat))
  }

  lemma SessionUrlsOfPrefix(routers: seq<EdgeRouter>, i: nat)
    requires i < |routers|
    ensures SessionUrls(routers[..i + 1]) == SessionUrls(routers[..i]) + (set k | 0 <= k < |routers[i].urls| :: routers[i].urls[k])
  {
    var pre, next := routers[..i], routers[..i + 1];
    forall u | u in SessionUrls(next)
      ensures u in SessionUrls(pre) + (set k | 0 <= k < |routers[i].urls| :: routers[i].urls[k])
    {
      var j :| 0 <= j < |next| && u in next[j].urls;
      if j < i {
        assert next[j] == pre[j];
      } else {
        var k :| 0 <= k < |routers[i].urls| && routers[i].urls[k] == u;
      }
    }
    forall u | u in SessionUrls(pre) ensures u in SessionUrls(next) {
      var j :| 0 <= j < |pre| && u in pre[j].urls;
      assert next[j] == pre[j];
    }
    forall k | 0 <= k < |routers[i].urls| ensures routers[i].urls[k] in SessionUrls(next) {
      assert next[i] == routers[i];
      assert routers[i].urls[k] in next[i].urls;
    }
  }

  lemma {:induction false} UnpooledCopiesMember(r: EdgeRouter, urls: seq<string>, pooled: set<string>)
    ensures forall x | x in UnpooledCopies(r, urls, pooled) :: x == r
    ensures (exists u | u in urls :: u !in pooled) <==> r in UnpooledCopies(r, urls, pooled)
  {
    if |urls| > 0 {
      var init := urls[..|urls| - 1];
      UnpooledCopiesMember(r, init, pooled);
      if exists u | u in urls :: u !in pooled {
        var u :| u in urls && u !in pooled;
        if u != urls[|urls| - 1] {
          assert u in init;
        }
      }
      if exists u | u in init :: u !in pooled {
        var u :| u in init && u !in pooled;
        assert u in urls;
      }
    }
  }

  /** A router is in the unconnected list exactly when it is one of the
      session's routers and has a URL without a pooled connection. */
  lemma {:induction false} UnconnectedMember(routers: seq<EdgeRouter>, pooled: set<string>)
    ensures forall x :: x in Unconnected(routers, pooled) <==>
      exists i | 0 <= i < |routers| :: routers[i] == x && HasUnpooledUrl(x, pooled)
  {
    if |routers| > 0 {
      var n := |routers| - 1;
      var init := routers[..n];
      UnconnectedMember(init, pooled);
      UnpooledCopiesMember(routers[n], routers[n].urls, pooled);
      forall x
        ensures x in Unconnected(routers, pooled) <==>
          exists i | 0 <= i < |routers| :: routers[i] == x && HasUnpooledUrl(x, pooled)
      {
        if x in Unconnected(routers, pooled) {
          if x in Unconnected(init, pooled) {
            var i :| 0 <= i < |init| && init[i] == x && HasUnpooledUrl(x, pooled);
            assert routers[i] == x;
          } else {
            assert routers[n] == x;
          }
        }
        if exists i | 0 <= i < |routers| :: routers[i] == x && HasUnpooledUrl(x, pooled) {
          var i :| 0 <= i < |routers| && routers[i] == x && HasUnpooledUrl(x, pooled);
          if i < n {
            assert init[i] == x;
          }
        }
      }
    }
  }

  lemma {:induction false} AcceptedDialsMember(name: string, urls: seq<string>, accepted: string -> bool)
    ensures forall d :: d in AcceptedDials(name, urls, accepted) <==>
      d.routerName == name && d.url in urls && accepted(d.url)
  {
    if |urls| > 0 {
      var init := urls[..|urls| - 1];
      AcceptedDialsMember(name, init, accepted);
      forall d: RouterDial | d.routerName == name && d.url in urls && accepted(d.url)
        ensures d in AcceptedDials(name, urls, accepted)
      {
        if d.url != urls[|urls| - 1] {
          assert d.url in init;
        }
      }
    }
  }

  lemma {:induction false} DialsForMember(routers: seq<EdgeRouter>, accepted: string -> bool)
    ensures forall d :: d in DialsFor(routers, accepted) <==>
      exists i | 0 <= i < |routers| :: d.routerName == routers[i].name && d.url in routers[i].urls && accepted(d.url)
  {
    if |routers| > 0 {
      var n := |routers| - 1;
      var init := routers[..n];
      DialsForMember(init, accepted);
      AcceptedDialsMember(routers[n].name, routers[n].urls, accepted);
      forall d
        ensures d in DialsFor(routers, accepted) <==>
          exists i | 0 <= i < |routers| :: d.routerName == routers[i].name && d.url in routers[i].urls && accepted(d.url)
      {
        if d in DialsFor(init, accepted) {
          var i :| 0 <= i < |init| && d.routerName == init[i].name && d.url in init[i].urls && accepted(d.url);
          assert routers[i] == init[i];
        }
        if exists i | 0 <= i < |routers| :: d.routerName == routers[i].name && d.url in routers[i].urls && accepted(d.url) {
          var i :| 0 <= i < |routers| && d.routerName == routers[i].name && d.url in routers[i].urls && accepted(d.url);
          if i < n {
            assert init[i] == routers[i];
          }
        }
      }
    }
  }

  /** The selection step dials exactly the accepted URLs of those session
      routers that have at least one URL without a pooled connection, under
      the router's name; it also dials that router's pooled, accepted URLs. */
  lemma SelectionDials(routers: seq<EdgeRouter>, pooled: set<string>, accepted: string -> bool)
    ensures forall d :: d in DialsFor(Unconnected(routers, pooled), accepted) <==>
      exists i | 0 <= i < |routers| ::
        d.routerName == routers[i].name && d.url in routers[i].urls && accepted(d.url) && HasUnpooledUrl(routers[i], pooled)
  {
    var un := Unconnected(routers, pooled);
    UnconnectedMember(routers, pooled);
    DialsForMember(un, accepted);
    forall d
      ensures d in DialsFor(un, accepted) <==>
        exists i | 0 <= i < |routers| ::
          d.routerName == routers[i].name && d.url in routers[i].urls && accepted(d.url) && HasUnpooledUrl(routers[i], pooled)
    {
      if d in DialsFor(un, accepted) {
        var j :| 0 <= j < |un| && d.routerName == un[j].name && d.url in un[j].urls && accepted(d.url);
        assert un[j] in un;
        var i :| 0 <= i < |routers| && routers[i] == un[j] && HasUnpooledUrl(un[j], pooled);
      }
      if exists i | 0 <= i < |routers| ::
          d.routerName == routers[i].name && d.url in routers[i].urls && accepted(d.url) && HasUnpooledUrl(routers[i], pooled)
      {
        var i :| 0 <= i < |routers| &&
          d.routerName == routers[i].name && d.url in routers[i].urls && accepted(d.url) && HasUnpooledUrl(routers[i], pooled);
        var x := routers[i];
        assert x in un;
        var j :| 0 <= j < |un| && un[j] == x;
      }
    }
  }

  lemma {:induction false} AllUrlsPooledNoCopies(r: EdgeRouter, urls: seq<string>, pooled: set<string>)
    requires forall k | 0 <= k < |urls| :: urls[k] in pooled
    ensures UnpooledCopies(r, urls, pooled) == []
  {
    if |urls| > 0 {
      AllUrlsPooledNoCopies(r, urls[..|urls| - 1], pooled);
    }
  }

  /** A session whose every URL is pooled has no unconnected router, so the
      selection step launches no dial. */
  lemma {:induction false} AllPooledDialsNothing(routers: seq<EdgeRouter>, pooled: set<string>, accepted: string -> bool)
    requires SessionUrls(routers) <= pooled
    ensures Unconnected(routers, pooled) == []
    ensures DialsFor(Unconnected(routers, pooled), accepted) == []
  {
    if |routers| > 0 {
      var n := |routers| - 1;
      SessionUrlsOfPrefix(routers, n);
      assert routers[..n + 1] == routers;
      AllPooledDialsNothing(routers[..n], pooled, accepted);
      AllUrlsPooledNoCopies(routers[n], routers[n].urls, pooled);
    }
  }

  /** The scan's update at a pooled URL `u` keeps SelectionSoFar: a strictly
      lower latency takes over, anything else leaves the best alone. */
  lemma SelectionVisitPooled(pool: map<string, RouterConn>, seen: set<string>, latency: string -> int,
                             best: Option<RouterConn>, lat: int, u: string)
    requires SelectionSoFar(pool, seen, latency, best, lat)
    requires u in pool
    ensures latency(u) < lat ==> SelectionSoFar(pool, seen + {u}, latency, Some(pool[u]), latency(u))
    ensures !(latency(u) < lat) ==> SelectionSoFar(pool, seen + {u}, latency, best, lat)
  {
    if latency(u) < lat {
      assert u in seen + {u} && u in pool && pool[u] == pool[u] && latency(u) == latency(u);
    } else if best.Some? {
      var v :| v in seen && v in pool && pool[v] == best.value && latency(v) == lat;
      assert v in seen + {u};
    }
  }

  /** The scan's step at an unpooled URL keeps SelectionSoFar. */
  lemma SelectionVisitUnpooled(pool: map<string, RouterConn>, seen: set<string>, latency: string -> int,
                               best: Option<RouterConn>, lat: int, u: string)
    requires SelectionSoFar(pool, seen, latency, best, lat)
    requires u !in pool
    ensures SelectionSoFar(pool, seen + {u}, latency, best, lat)
  {
    if best.Some? {
      var v :| v in seen && v in pool && pool[v] == best.value && latency(v) == lat;
      assert v in seen + {u};
    }
  }
}
