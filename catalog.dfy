/** The service catalog's diff of a new service snapshot against the services
    it already holds (ContextImpl.processServiceUpdates), as functions of the
    old maps and the snapshot. The Context class's method is proved to produce
    exactly these; the lemmas state what the diff guarantees. */
module ServiceCatalog {
  import opened Wrappers
  import opened Types

  /** A notification on the events emitter, or an OnServiceUpdate callback. */
  datatype ServiceEvent =
    | ServiceAdded(service: ServiceDetail)
    | ServiceChanged(service: ServiceDetail)
    | ServiceRemoved(service: ServiceDetail)

  /** The ids of the snapshot (the keys of idMap). */
  function SnapshotIds(snapshot: seq<ServiceDetail>): set<string>
  {
    set i | 0 <= i < |snapshot| :: snapshot[i].id
  }

  /** The names of the snapshot. */
  function Names(snapshot: seq<ServiceDetail>): set<string>
  {
    set i | 0 <= i < |snapshot| :: snapshot[i].name
  }

  /** The keys (names) of the stored services whose id the snapshot lacks. */
  function RemovedKeys(services: map<string, ServiceDetail>, ids: set<string>): set<string>
  {
    set k | k in services && services[k].id !in ids
  }

  /** The keys of `order` that the delete pass collects, in visiting order. */
  function RemovedInOrder(services: map<string, ServiceDetail>, ids: set<string>, order: seq<string>): (r: seq<string>)
    ensures forall i | 0 <= i < |r| :: r[i] in services && services[r[i]].id !in ids
    ensures |r| <= |order|
  {
    if |order| == 0 then []
    else
      var k := order[|order| - 1];
      RemovedInOrder(services, ids, order[..|order| - 1])
        + (if k in services && services[k].id !in ids then [k] else [])
  }

  /** One removal notification per collected key, in the same order. */
  function RemovalEvents(services: map<string, ServiceDetail>, keys: seq<string>): seq<ServiceEvent>
    requires forall i | 0 <= i < |keys| :: keys[i] in services
  {
    if |keys| == 0 then []
    else RemovalEvents(services, keys[..|keys| - 1]) + [ServiceRemoved(services[keys[|keys| - 1]])]
  }

  /** The services map after upserting every snapshot service by name. */
  function Upserted(base: map<string, ServiceDetail>, snapshot: seq<ServiceDetail>): map<string, ServiceDetail>
  {
    if |snapshot| == 0 then base
    else
      var s := snapshot[|snapshot| - 1];
      Upserted(base, snapshot[..|snapshot| - 1])[s.name := s]
  }

  /** The emitter's notifications of the upsert pass: "changed" when the name
      is already in the map at the moment of the upsert, else "added". */
  function UpsertEvents(base: map<string, ServiceDetail>, snapshot: seq<ServiceDetail>): seq<ServiceEvent>
  {
    if |snapshot| == 0 then []
    else
      var s := snapshot[|snapshot| - 1];
      var before := Upserted(base, snapshot[..|snapshot| - 1]);
      UpsertEvents(base, snapshot[..|snapshot| - 1])
        + [if s.name in before then ServiceChanged(s) else ServiceAdded(s)]
  }

  /** The OnServiceUpdate callbacks of the upsert pass: "changed" only when the
      stored value differs from the new one, "added" for a new name. */
  function UpsertCallbacks(base: map<string, ServiceDetail>, snapshot: seq<ServiceDetail>): seq<ServiceEvent>
  {
    if |snapshot| == 0 then []
    else
      var s := snapshot[|snapshot| - 1];
      var before := Upserted(base, snapshot[..|snapshot| - 1]);
      UpsertCallbacks(base, snapshot[..|snapshot| - 1])
        + (if s.name !in before then [ServiceAdded(s)]
           else if before[s.name] != s then [ServiceChanged(s)]
           else [])
  }

  /** The intercept rule a service yields: its intercept.v1 config if that
      parses, else its ziti-tunneler-client.v1 config translated, else none.
      A parse error of the first shape yields none without trying the second. */
  function DerivedIntercept(s: ServiceDetail, parsers: ConfigParsers): Option<Intercept>
  {
    match parsers.intercept(s)
    case ParseError => None
    case Present(config) => Some(Intercept(config, s))
    case NotPresent =>
      match parsers.client(s)
      case Present(client) => Some(Intercept(parsers.convert(client), s))
      case _ => None
  }

  /** The intercepts map after the upsert pass: a service that yields a rule
      overwrites its name's entry; one that yields none leaves it alone. */
  function UpdatedIntercepts(base: map<string, Intercept>, snapshot: seq<ServiceDetail>, parsers: ConfigParsers): map<string, Intercept>
  {
    if |snapshot| == 0 then base
    else
      var s := snapshot[|snapshot| - 1];
      var before := UpdatedIntercepts(base, snapshot[..|snapshot| - 1], parsers);
      match DerivedIntercept(s, parsers)
      case Some(rule) => before[s.name := rule]
      case None => before
  }

  lemma NamesOfPrefix(snapshot: seq<ServiceDetail>)
    requires |snapshot| > 0
    ensures Names(snapshot) == Names(snapshot[..|snapshot| - 1]) + {snapshot[|snapshot| - 1].name}
    ensures SnapshotIds(snapshot) == SnapshotIds(snapshot[..|snapshot| - 1]) + {snapshot[|snapshot| - 1].id}
  {
    var init := snapshot[..|snapshot| - 1];
    forall n | n in Names(snapshot) ensures n in Names(init) + {snapshot[|snapshot| - 1].name} {
      var i :| 0 <= i < |snapshot| && snapshot[i].name == n;
      if i < |init| { assert init[i] == snapshot[i]; }
    }
    forall n | n in Names(init) ensures n in Names(snapshot) {
      var i :| 0 <= i < |init| && init[i].name == n;
      assert snapshot[i] == init[i];
    }
    forall n | n in SnapshotIds(snapshot) ensures n in SnapshotIds(init) + {snapshot[|snapshot| - 1].id} {
      var i :| 0 <= i < |snapshot| && snapshot[i].id == n;
      if i < |init| { assert init[i] == snapshot[i]; }
    }
    forall n | n in SnapshotIds(init) ensures n in SnapshotIds(snapshot) {
      var i :| 0 <= i < |init| && init[i].id == n;
      assert snapshot[i] == init[i];
    }
  }

  /** After the upsert pass the map holds exactly the old names and the
      snapshot's names. */
  lemma {:induction false} UpsertedKeys(base: map<string, ServiceDetail>, snapshot: seq<ServiceDetail>)
    ensures Upserted(base, snapshot).Keys == base.Keys + Names(snapshot)
  {
    if |snapshot| > 0 {
      UpsertedKeys(base, snapshot[..|snapshot| - 1]);
      NamesOfPrefix(snapshot);
    } else {
      assert Names(snapshot) == {};
    }
  }

  /** A snapshot service whose name does not occur later in the snapshot is
      what the upsert pass leaves under that name. */
  lemma {:induction false} UpsertedValueAt(base: map<string, ServiceDetail>, snapshot: seq<ServiceDetail>, i: nat)
    requires i < |snapshot|
    requires forall j | i < j < |snapshot| :: snapshot[j].name != snapshot[i].name
    ensures snapshot[i].name in Upserted(base, snapshot) && Upserted(base, snapshot)[snapshot[i].name] == snapshot[i]
  {
    var n := |snapshot| - 1;
    if i < n {
      var init := snapshot[..n];
      assert init[i] == snapshot[i];
      forall j | i < j < |init| ensures init[j].name != init[i].name {
        assert init[j] == snapshot[j];
      }
      UpsertedValueAt(base, init, i);
      assert snapshot[n].name != snapshot[i].name;
    }
  }

  /** A name the snapshot lacks keeps its old value. */
  lemma {:induction false} UpsertedKeepsOther(base: map<string, ServiceDetail>, snapshot: seq<ServiceDetail>, k: string)
    requires k in base && k !in Names(snapshot)
    ensures k in Upserted(base, snapshot) && Upserted(base, snapshot)[k] == base[k]
  {
    if |snapshot| > 0 {
      NamesOfPrefix(snapshot);
      UpsertedKeepsOther(base, snapshot[..|snapshot| - 1], k);
    }
  }

  /** Every snapshot service is stored under its name; when a name occurs more
      than once, the last occurrence wins. Names the snapshot lacks keep their
      old value. */
  lemma UpsertedValues(base: map<string, ServiceDetail>, snapshot: seq<ServiceDetail>)
    ensures forall i | 0 <= i < |snapshot| && (forall j | i < j < |snapshot| :: snapshot[j].name != snapshot[i].name) ::
      snapshot[i].name in Upserted(base, snapshot) && Upserted(base, snapshot)[snapshot[i].name] == snapshot[i]
    ensures forall k | k in base && k !in Names(snapshot) :: k in Upserted(base, snapshot) && Upserted(base, snapshot)[k] == base[k]
  {
    forall i | 0 <= i < |snapshot| && (forall j | i < j < |snapshot| :: snapshot[j].name != snapshot[i].name)
      ensures snapshot[i].name in Upserted(base, snapshot) && Upserted(base, snapshot)[snapshot[i].name] == snapshot[i]
    {
      UpsertedValueAt(base, snapshot, i);
    }
    forall k | k in base && k !in Names(snapshot)
      ensures k in Upserted(base, snapshot) && Upserted(base, snapshot)[k] == base[k]
    {
      UpsertedKeepsOther(base, snapshot, k);
    }
  }

  /** Upserting by name keeps every service stored under its own name. */
  lemma {:induction false} UpsertedKeyedByName(base: map<string, ServiceDetail>, snapshot: seq<ServiceDetail>)
    requires forall k | k in base :: base[k].name == k
    ensures forall k | k in Upserted(base, snapshot) :: Upserted(base, snapshot)[k].name == k
  {
    if |snapshot| > 0 {
      UpsertedKeyedByName(base, snapshot[..|snapshot| - 1]);
    }
  }

  /** Once the delete pass has dropped every service whose id the snapshot
      lacks, no stored service carries an id outside the snapshot. */
  lemma {:induction false} OnlySnapshotIdsRemain(base: map<string, ServiceDetail>, snapshot: seq<ServiceDetail>, ids: set<string>)
    requires forall k | k in base :: base[k].id in ids
    requires SnapshotIds(snapshot) <= ids
    ensures forall k | k in Upserted(base, snapshot) :: Upserted(base, snapshot)[k].id in ids
  {
    if |snapshot| > 0 {
      NamesOfPrefix(snapshot);
      OnlySnapshotIdsRemain(base, snapshot[..|snapshot| - 1], ids);
    }
  }

  /** The whole diff: every service left in the map after processing has an id
      that occurs in the snapshot. */
  lemma RemovedServicesGone(services: map<string, ServiceDetail>, snapshot: seq<ServiceDetail>)
    ensures var ids := SnapshotIds(snapshot);
            var after := Upserted(services - RemovedKeys(services, ids), snapshot);
            forall k | k in after :: after[k].id in ids
  {
    var ids := SnapshotIds(snapshot);
    OnlySnapshotIdsRemain(services - RemovedKeys(services, ids), snapshot, ids);
  }

  /** The i-th upsert notification carries the i-th snapshot service and is
      decided by the map as it stands just before that upsert. */
  lemma {:induction false} UpsertEventAt(base: map<string, ServiceDetail>, snapshot: seq<ServiceDetail>, i: nat)
    requires i < |snapshot|
    ensures |UpsertEvents(base, snapshot)| == |snapshot|
    ensures UpsertEvents(base, snapshot)[i] ==
      if snapshot[i].name in Upserted(base, snapshot[..i]) then ServiceChanged(snapshot[i]) else ServiceAdded(snapshot[i])
  {
    var n := |snapshot| - 1;
    var init := snapshot[..n];
    if i < n {
      UpsertEventAt(base, init, i);
      assert init[..i] == snapshot[..i];
      assert init[i] == snapshot[i];
    } else if n > 0 {
      UpsertEventAt(base, init, 0);
    }
  }

  /** The i-th upsert notification carries the i-th snapshot service; it says
      "changed" exactly when the name was in the map before the pass or
      occurred earlier in the snapshot, and "added" otherwise. */
  lemma UpsertEventKinds(base: map<string, ServiceDetail>, snapshot: seq<ServiceDetail>)
    ensures |UpsertEvents(base, snapshot)| == |snapshot|
    ensures forall i | 0 <= i < |snapshot| ::
      UpsertEvents(base, snapshot)[i] ==
        if snapshot[i].name in base || snapshot[i].name in Names(snapshot[..i])
        then ServiceChanged(snapshot[i]) else ServiceAdded(snapshot[i])
  {
    if |snapshot| > 0 {
      UpsertEventAt(base, snapshot, 0);
    }
    forall i | 0 <= i < |snapshot|
      ensures UpsertEvents(base, snapshot)[i] ==
        if snapshot[i].name in base || snapshot[i].name in Names(snapshot[..i])
        then ServiceChanged(snapshot[i]) else ServiceAdded(snapshot[i])
    {
      UpsertEventAt(base, snapshot, i);
      UpsertedKeys(base, snapshot[..i]);
    }
  }

  /** An OnServiceUpdate "changed" callback is made only for a snapshot service
      whose stored value differed at the moment of its upsert, and an "added"
      callback only for one whose name was not stored. */
  lemma {:induction false} CallbacksOnlyOnDifference(base: map<string, ServiceDetail>, snapshot: seq<ServiceDetail>)
    ensures forall e | e in UpsertCallbacks(base, snapshot) ::
      exists i | 0 <= i < |snapshot| :: (e.service == snapshot[i] &&
        var before := Upserted(base, snapshot[..i]);
        if e.ServiceChanged? then snapshot[i].name in before && before[snapshot[i].name] != snapshot[i]
        else e.ServiceAdded? && snapshot[i].name !in before)
  {
    if |snapshot| > 0 {
      var n := |snapshot| - 1;
      var init := snapshot[..n];
      CallbacksOnlyOnDifference(base, init);
      forall e | e in UpsertCallbacks(base, snapshot)
        ensures exists i | 0 <= i < |snapshot| :: (e.service == snapshot[i] &&
          var before := Upserted(base, snapshot[..i]);
          if e.ServiceChanged? then snapshot[i].name in before && before[snapshot[i].name] != snapshot[i]
          else e.ServiceAdded? && snapshot[i].name !in before)
      {
        if e in UpsertCallbacks(base, init) {
          var i :| 0 <= i < |init| && (e.service == init[i] &&
            var before := Upserted(base, init[..i]);
            if e.ServiceChanged? then init[i].name in before && before[init[i].name] != init[i]
            else e.ServiceAdded? && init[i].name !in before);
          assert init[..i] == snapshot[..i];
          assert init[i] == snapshot[i];
        } else {
          assert snapshot[..n] == init;
        }
      }
    }
  }

  /** An intercept rule is stored under the name of the service it belongs
      to, and only for names the services map holds, provided both held before. */
  lemma {:induction false} InterceptsFollowServices(
    intercepts: map<string, Intercept>, services: map<string, ServiceDetail>,
    snapshot: seq<ServiceDetail>, parsers: ConfigParsers)
    requires intercepts.Keys <= services.Keys
    requires forall k | k in intercepts :: intercepts[k].service.name == k
    ensures UpdatedIntercepts(intercepts, snapshot, parsers).Keys <= Upserted(services, snapshot).Keys
    ensures forall k | k in UpdatedIntercepts(intercepts, snapshot, parsers) ::
      UpdatedIntercepts(intercepts, snapshot, parsers)[k].service.name == k
  {
    if |snapshot| > 0 {
      InterceptsFollowServices(intercepts, services, snapshot[..|snapshot| - 1], parsers);
    }
  }

  /** The last snapshot service of a name that yields a rule decides that
      name's rule; if no service of that name yields one, the rule stored
      before the pass, if any, stays. */
  lemma {:induction false} InterceptOfName(
    intercepts: map<string, Intercept>, snapshot: seq<ServiceDetail>, parsers: ConfigParsers, name: string)
    ensures var after := UpdatedIntercepts(intercepts, snapshot, parsers);
      forall i | 0 <= i < |snapshot| && snapshot[i].name == name && DerivedIntercept(snapshot[i], parsers).Some? &&
                 (forall j | i < j < |snapshot| && snapshot[j].name == name :: DerivedIntercept(snapshot[j], parsers).None?) ::
        name in after && after[name] == DerivedIntercept(snapshot[i], parsers).value
    ensures var after := UpdatedIntercepts(intercepts, snapshot, parsers);
      (forall j | 0 <= j < |snapshot| && snapshot[j].name == name :: DerivedIntercept(snapshot[j], parsers).None?) ==>
        (name in after <==> name in intercepts) && (name in intercepts ==> after[name] == intercepts[name])
  {
    if |snapshot| > 0 {
      var n := |snapshot| - 1;
      var init := snapshot[..n];
      InterceptOfName(intercepts, init, parsers, name);
      assert forall j | 0 <= j < n :: init[j] == snapshot[j];
    }
  }

  /** The delete pass collects each key of `order` whose service the snapshot
      lacks, once, and no other key. */
  lemma {:induction false} RemovedInOrderExact(services: map<string, ServiceDetail>, ids: set<string>, order: seq<string>)
    requires forall i, j | 0 <= i < j < |order| :: order[i] != order[j]
    ensures Enumerates(RemovedInOrder(services, ids, order),
                       set i | 0 <= i < |order| && order[i] in RemovedKeys(services, ids) :: order[i])
  {
    var r := RemovedInOrder(services, ids, order);
    var target := set i | 0 <= i < |order| && order[i] in RemovedKeys(services, ids) :: order[i];
    if |order| > 0 {
      var n := |order| - 1;
      var init := order[..n];
      var rInit := RemovedInOrder(services, ids, init);
      var tInit := set i | 0 <= i < |init| && init[i] in RemovedKeys(services, ids) :: init[i];
      RemovedInOrderExact(services, ids, init);
      assert forall i | 0 <= i < n :: init[i] == order[i];
      forall i | 0 <= i < |init| ensures init[i] != order[n] {
        assert order[i] == init[i];
      }
      assert order[n] !in tInit;
      assert target == tInit + (if order[n] in RemovedKeys(services, ids) then {order[n]} else {}) by {
        forall k | k in target ensures k in tInit + (if order[n] in RemovedKeys(services, ids) then {order[n]} else {}) {
          var i :| 0 <= i < |order| && order[i] in RemovedKeys(services, ids) && order[i] == k;
          if i < n { assert init[i] == k; }
        }
      }
    } else {
      assert target == {};
    }
  }

  /** With `order` enumerating the services map, the delete pass collects
      every removed key exactly once. */
  lemma RemovedOnce(services: map<string, ServiceDetail>, ids: set<string>, order: seq<string>)
    requires Enumerates(order, services.Keys)
    ensures Enumerates(RemovedInOrder(services, ids, order), RemovedKeys(services, ids))
    ensures |RemovedInOrder(services, ids, order)| == |RemovedKeys(services, ids)|
  {
    RemovedInOrderExact(services, ids, order);
    var target := set i | 0 <= i < |order| && order[i] in RemovedKeys(services, ids) :: order[i];
    assert target == RemovedKeys(services, ids) by {
      forall k | k in RemovedKeys(services, ids) ensures k in target {
        var i :| 0 <= i < |order| && order[i] == k;
      }
    }
    EnumerationSize(RemovedInOrder(services, ids, order), RemovedKeys(services, ids));
  }

  /** A stored service whose id the snapshot still carries, but under other
      names only (a rename), is spared by the by-id delete pass and not
      overwritten by the by-name upserts: its entry under the old name stays. */
  lemma RenamedServiceKeepsOldName(services: map<string, ServiceDetail>, snapshot: seq<ServiceDetail>, k: string)
    requires k in services && services[k].id in SnapshotIds(snapshot) && k !in Names(snapshot)
    ensures var after := Upserted(services - RemovedKeys(services, SnapshotIds(snapshot)), snapshot);
      k in after && after[k] == services[k]
  {
    var base := services - RemovedKeys(services, SnapshotIds(snapshot));
    assert k in base;
    UpsertedKeepsOther(base, snapshot, k);
  }

  /** The whole diff, for intercepts: every rule left after processing is
      stored under the name of a stored service whose id occurs in the
      snapshot. */
  lemma InterceptKeysFollowSnapshot(
    services: map<string, ServiceDetail>, intercepts: map<string, Intercept>,
    snapshot: seq<ServiceDetail>, parsers: ConfigParsers)
    requires intercepts.Keys <= services.Keys
    requires forall k | k in intercepts :: intercepts[k].service.name == k
    ensures var ids := SnapshotIds(snapshot);
            var gone := RemovedKeys(services, ids);
            var after := Upserted(services - gone, snapshot);
            var rules := UpdatedIntercepts(intercepts - gone, snapshot, parsers);
            forall k | k in rules :: k in after && after[k].id in ids
  {
    var ids := SnapshotIds(snapshot);
    var gone := RemovedKeys(services, ids);
    InterceptsFollowServices(intercepts - gone, services - gone, snapshot, parsers);
    RemovedServicesGone(services, snapshot);
  }

  /** The intercepts agree exactly with the stored services: a name has a rule
      iff its service yields one, and then it is that rule. */
  ghost predicate InterceptsExact(intercepts: map<string, Intercept>, services: map<string, ServiceDetail>, parsers: ConfigParsers)
  {
    && intercepts.Keys <= services.Keys
    && forall k | k in services ::
         DerivedIntercept(services[k], parsers) == if k in intercepts then Some(intercepts[k]) else None
  }

  /** A parser for the exhibit below: a service has an intercept.v1 config
      exactly when its configs map has that key. */
  function ExhibitParsers(): ConfigParsers
  {
    ConfigParsers(
      (s: ServiceDetail) => if "intercept.v1" in s.configs then Present(InterceptConfig(["tcp"], [s.configs["intercept.v1"]], [])) else NotPresent,
      (s: ServiceDetail) => NotPresent,
      (c: ClientConfig) => InterceptConfig([], [], []))
  }

  /** As written, a service that drops its intercept config keeps its old
      rule: the snapshot carries the same service without the config, the
      stored service is replaced, but the rule built from the old descriptor
      stays, so the intercepts no longer agree with the services. */
  lemma InterceptOutlivesItsConfig()
    ensures var withCfg := ServiceDetail("id1", "A", map["intercept.v1" := "a.ziti"], map[]);
            var without := ServiceDetail("id1", "A", map[], map[]);
            var rule := Intercept(InterceptConfig(["tcp"], ["a.ziti"], []), withCfg);
            var services := map["A" := withCfg];
            var intercepts := map["A" := rule];
            var gone := RemovedKeys(services, SnapshotIds([without]));
            var after := Upserted(services - gone, [without]);
            var rules := UpdatedIntercepts(intercepts - gone, [without], ExhibitParsers());
            && InterceptsExact(intercepts, services, ExhibitParsers())
            && after == map["A" := without]
            && DerivedIntercept(without, ExhibitParsers()).None?
            && rules == map["A" := rule]
            && !InterceptsExact(rules, after, ExhibitParsers())
  {
    var withCfg := ServiceDetail("id1", "A", map["intercept.v1" := "a.ziti"], map[]);
    var without := ServiceDetail("id1", "A", map[], map[]);
    var services := map["A" := withCfg];
    assert [without][0] == without;
    assert SnapshotIds([without]) == {"id1"};
    assert RemovedKeys(services, SnapshotIds([without])) == {};
    assert [without][..0] == [];
  }

  /** The intercepts map after the upsert pass as evidently intended: a
      service that yields no rule also loses any rule stored under its name. */
  function UpdatedInterceptsIntended(base: map<string, Intercept>, snapshot: seq<ServiceDetail>, parsers: ConfigParsers): map<string, Intercept>
  {
    if |snapshot| == 0 then base
    else
      var s := snapshot[|snapshot| - 1];
      var before := UpdatedInterceptsIntended(base, snapshot[..|snapshot| - 1], parsers);
      match DerivedIntercept(s, parsers)
      case Some(rule) => before[s.name := rule]
      case None => before - {s.name}
  }

  /** The intended upsert pass keeps the intercepts exactly in step with the
      services. */
  lemma {:induction false} IntendedInterceptsExact(
    intercepts: map<string, Intercept>, services: map<string, ServiceDetail>,
    snapshot: seq<ServiceDetail>, parsers: ConfigParsers)
    requires InterceptsExact(intercepts, services, parsers)
    ensures InterceptsExact(UpdatedInterceptsIntended(intercepts, snapshot, parsers), Upserted(services, snapshot), parsers)
  {
    if |snapshot| > 0 {
      IntendedInterceptsExact(intercepts, services, snapshot[..|snapshot| - 1], parsers);
    }
  }

  /** The whole diff with the intended upsert pass: after the delete pass
      and the upserts, every stored service has exactly the rule it yields,
      so no rule outlives its config or its service. */
  lemma IntendedDiffKeepsInterceptsExact(
    services: map<string, ServiceDetail>, intercepts: map<string, Intercept>,
    snapshot: seq<ServiceDetail>, parsers: ConfigParsers)
    requires InterceptsExact(intercepts, services, parsers)
    ensures var gone := RemovedKeys(services, SnapshotIds(snapshot));
            InterceptsExact(UpdatedInterceptsIntended(intercepts - gone, snapshot, parsers),
                            Upserted(services - gone, snapshot), parsers)
  {
    var gone := RemovedKeys(services, SnapshotIds(snapshot));
    assert InterceptsExact(intercepts - gone, services - gone, parsers);
    IntendedInterceptsExact(intercepts - gone, services - gone, snapshot, parsers);
  }
}
