/** CtxCollection: SDK contexts kept as a group, by context id, and the
    creation of a context that joins the group on success. */
module Collection {
  import opened Wrappers

  /** A Context as the collection sees it: its id (GetId, changed by SetId)
      and whether it has been closed. */
  class SdkContext {
    var id: string
    var closed: bool

    constructor (id: string)
      ensures this.id == id && !closed
    {
      this.id := id;
      closed := false;
    }

    /** SetId: the id changes; a collection holding the context is not told. */
    method SetId(id: string)
      modifies this`id
      ensures this.id == id
    {
      this.id := id;
    }

    method Close()
      modifies this`closed
      ensures closed
    {
      closed := true;
    }
  }

  /** The part of a Config the collection touches. */
  class Config {
    var configTypes: seq<string>

    constructor (configTypes: seq<string>)
      ensures this.configTypes == configTypes
    {
      this.configTypes := configTypes;
    }
  }

  class CtxCollection {
    /** Contexts by the id they had when added. Only Add stores into it, always
        a non-nil context, so the nil case of Go's merge function never arises. */
    var contexts: map<string, SdkContext>
    var configTypes: seq<string>

    /** Every context is stored under its current id. Add and Remove keep
        this, but a SetId on a stored context breaks it. */
    ghost predicate Valid()
      reads this, contexts.Values
    {
      forall k | k in contexts :: contexts[k].id == k
    }

    /** The context that adding `ctx` would close: the one stored under its
        id, when that is a different instance. */
    function Displaced(ctx: SdkContext): (d: Option<SdkContext>)
      reads this, ctx
      ensures d.Some? <==> ctx.id in contexts && contexts[ctx.id] != ctx
      ensures d.Some? ==> d.value == contexts[ctx.id] && d.value != ctx
    {
      if ctx.id in contexts && contexts[ctx.id] != ctx then Some(contexts[ctx.id]) else None
    }

    /** NewSdkCollection. */
    constructor ()
      ensures Valid() && contexts == map[] && configTypes == []
    {
      contexts := map[];
      configTypes := [];
    }

    /** Add: `ctx` ends up stored under its id and no other entry changes.
        A different instance previously stored under that id is closed;
        re-adding the same instance closes nothing. No id changes. */
    method Add(ctx: SdkContext)
      modifies this, contexts.Values`closed
      ensures old(Valid()) ==> Valid()
      ensures contexts == old(contexts)[ctx.id := ctx]
      ensures configTypes == old(configTypes)
      ensures old(Displaced(ctx)).Some? ==> old(Displaced(ctx)).value.closed
      ensures forall c: SdkContext | c in old(contexts).Values + {ctx} && Some(c) != old(Displaced(ctx)) ::
        c.closed == old(c.closed)
    {
      var id := ctx.id;
      if id in contexts {
        var existing := contexts[id];
        if existing != ctx {
          existing.Close();
        }
      }
      contexts := contexts[id := ctx];
    }

    /** Remove: drop the entry under the context's current id; nothing is
        closed. A context whose id changed since it was added stays. */
    method Remove(ctx: SdkContext)
      modifies this
      ensures old(Valid()) ==> Valid()
      ensures contexts == old(contexts) - {ctx.id}
      ensures configTypes == old(configTypes)
    {
      contexts := contexts - {ctx.id};
    }

    /** RemoveById: drop the entry under `id`; nothing is closed. */
    method RemoveById(id: string)
      modifies this
      ensures old(Valid()) ==> Valid()
      ensures contexts == old(contexts) - {id}
      ensures configTypes == old(configTypes)
    {
      contexts := contexts - {id};
    }

    /** ForAll: the contexts `f` is called with, in call order, when the map
        is iterated in `order`: one call per entry, so every stored context is
        passed and nothing else is. While every context sits under its own id,
        no context is passed twice. */
    method ForAll(order: seq<string>) returns (calls: seq<SdkContext>)
      requires Enumerates(order, contexts.Keys)
      ensures |calls| == |order| == |contexts|
      ensures forall i | 0 <= i < |calls| :: calls[i] == contexts[order[i]]
      ensures forall c | c in contexts.Values :: c in calls
      ensures Valid() ==> forall i, j | 0 <= i < j < |calls| :: calls[i] != calls[j]
    {
      calls := [];
      var i := 0;
      while i < |order|
        invariant 0 <= i <= |order|
        invariant |calls| == i
        invariant forall j | 0 <= j < i :: calls[j] == contexts[order[j]]
      {
        calls := calls + [contexts[order[i]]];
        i := i + 1;
      }
      EnumerationSize(order, contexts.Keys);
      forall c | c in contexts.Values ensures c in calls {
        var k :| k in contexts && contexts[k] == c;
        var j :| 0 <= j < |order| && order[j] == k;
        assert calls[j] == c;
      }
      if Valid() {
        forall i, j | 0 <= i < j < |calls| ensures calls[i] != calls[j] {
          assert calls[i].id == order[i] && calls[j].id == order[j];
        }
      }
    }

    /** NewContextWithOpts: the collection's config types are appended to the
        config's; `created` is what ziti.NewContextWithOpts yields (none on
        error). A created context is added and returned, closing only the
        instance it displaces; on error nothing is returned, the collection
        is unchanged and nothing is closed. */
    method NewContextWithOpts(cfg: Config, created: Option<SdkContext>) returns (ctx: Option<SdkContext>)
      modifies this, cfg, contexts.Values`closed
      ensures old(Valid()) ==> Valid()
      ensures cfg.configTypes == old(cfg.configTypes) + configTypes
      ensures configTypes == old(configTypes)
      ensures ctx == created
      ensures created.None? ==> contexts == old(contexts)
      ensures created.None? ==> forall c | c in old(contexts).Values :: c.closed == old(c.closed)
      ensures created.Some? ==> contexts == old(contexts)[created.value.id := created.value]
      ensures created.Some? && old(Displaced(created.value)).Some? ==> old(Displaced(created.value)).value.closed
      ensures created.Some? ==> forall c: SdkContext | c in old(contexts).Values + {created.value} && Some(c) != old(Displaced(created.value)) ::
        c.closed == old(c.closed)
    {
      cfg.configTypes := cfg.configTypes + configTypes;
      if created.None? {
        return None;
      }
      Add(created.value);
      ctx := created;
    }
  }

  /** A context renamed with SetId after it was added is still stored under
      its old id, so Remove of that context leaves it in the collection. */
  method RemoveAfterSetId() returns (c: CtxCollection, ctx: SdkContext)
    ensures ctx.id == "b" && "a" in c.contexts && c.contexts["a"] == ctx
    ensures !c.Valid()
  {
    c := new CtxCollection();
    ctx := new SdkContext("a");
    c.Add(ctx);
    ctx.SetId("b");
    c.Remove(ctx);
  }
}
