/**
 * The stateful engine of warn/warn.py: the global filter list, version
 * counter, proxy side-table and once-registry as fields of one object, and
 * a call site's `__warningregistry__` as another.  Each method is proved to
 * change the state exactly as the specification functions of Registration,
 * Dispatch and Entry say.
 */
module Warnings {
  import opened Wrappers
  import opened Rules
  import opened Registration
  import opened Dispatch
  import opened Entry

  /** A call site's `__warningregistry__`: the `'version'` entry (0 when absent) and the marked keys. */
  class Registry {
    var version: int
    var keys: set<Key>

    constructor ()
      ensures version == 0 && keys == {}
    {
      version := 0;
      keys := {};
    }

    function Contents(): (r: Memo)
      reads this
    {
      Memo(version, keys)
    }
  }

  /**
   * `warnings.filters`, `warnings._filters_version`, `_proxy_map`,
   * `onceregistry`, and the warnings handed to `showwarning` so far.
   */
  class Engine {
    const host: Host
    var filters: seq<Filter>
    var version: int
    var proxyMap: map<int, Filter>
    var onceRegistry: set<OnceKey>
    var shown: seq<Shown>

    ghost predicate Valid()
      reads this
    {
      version >= 1 && Dense(proxyMap)
    }

    function FilterStore(): (r: Store)
      reads this
    {
      Store(filters, proxyMap, version)
    }

    /** The state once the module is imported: version 1 and an empty side-table. */
    constructor (host: Host, filters: seq<Filter>, onceRegistry: set<OnceKey>)
      ensures Valid()
      ensures this.host == host && this.filters == filters && this.onceRegistry == onceRegistry
      ensures version == 1 && proxyMap == map[] && shown == []
    {
      this.host := host;
      this.filters := filters;
      this.onceRegistry := onceRegistry;
      version := 1;
      proxyMap := map[];
      shown := [];
    }

    /** `_filters_mutated`. */
    method FiltersMutated()
      modifies this`version
      ensures version == old(version) + 1
    {
      version := version + 1;
    }

    /** `_set_proxy_filter`. */
    method SetProxyFilter(item: Filter) returns (entry: Filter)
      modifies this`proxyMap
      ensures (entry, proxyMap) == SetProxy(old(proxyMap), item)
    {
      if item.Filter6? {
        var key := |proxyMap| + 1;
        proxyMap := proxyMap[key := item];
        entry := Sentinel(key);
      } else {
        entry := item;
      }
    }

    /** `filterwarnings`: `Some(e)` is the AssertionError raised, and then nothing changes. */
    method FilterWarnings(a: Args) returns (err: Option<Error>)
      requires Valid()
      modifies this`filters, this`proxyMap, this`version
      ensures Valid()
      ensures Register(host, old(FilterStore()), a).Err? ==>
        err == Some(Register(host, old(FilterStore()), a).error) && FilterStore() == old(FilterStore())
      ensures Register(host, old(FilterStore()), a).Ok? ==>
        err == None && FilterStore() == Register(host, old(FilterStore()), a).value
    {
      err := Validate(host, a);
      if err.Some? {
        return;
      }
      RegisterEffect(host, FilterStore(), a);
      var entry := SetProxyFilter(MakeRule(a));
      if a.append {
        filters := filters + [entry];
      } else {
        filters := [entry] + filters;
      }
      FiltersMutated();
    }

    /**
     * The `for ... break / else` search of `warn_explicit`: resolve each
     * entry through the side-table and test it; stop at the first match.
     */
    method Scan(ev: Event) returns (res: Result<Choice>)
      ensures res == Select(host, proxyMap, filters, ev)
    {
      var i := 0;
      while i < |filters|
        invariant 0 <= i <= |filters|
        invariant Select(host, proxyMap, filters, ev) == SelectFrom(host, proxyMap, filters, ev, i)
      {
        var item := GetProxy(proxyMap, filters[i]);
        if item.Err? {
          return Err(item.error);
        }
        var hit := Test(host, item.value, ev);
        if hit.Err? {
          return Err(hit.error);
        }
        if hit.value {
          return Ok(Picked(i, item.value));
        }
        i := i + 1;
      }
      return Ok(NoMatch);
    }

    /**
     * The action part of `warn_explicit`, on a registry already brought up
     * to date; `scanned` says whether the search read any filter.
     */
    method ApplyAction(action: string, scanned: bool, reg: Registry, c: Call) returns (r: Outcome)
      modifies reg, this`onceRegistry, this`shown
      ensures var s := Apply(action, scanned, old(reg.Contents()), old(onceRegistry), c);
        r == s.outcome && reg.Contents() == s.memo && onceRegistry == s.once &&
        shown == old(shown) + (if r.Emitted? then [r.warning] else [])
    {
      var text, cat := TextOf(c), CategoryOf(c);
      var key := (text, cat, c.lineno);
      // ignore and error leave before anything is shown
      if action == "ignore" {
        reg.keys := reg.keys + {key};
        return Silent;
      }
      if action == "error" {
        return Raised(Escalated(text, cat));
      }
      // the actions that may show the warning
      if action == "once" {
        reg.keys := reg.keys + {key};
        var onceKey := (text, cat);
        if onceKey in onceRegistry {
          return Silent;
        }
        onceRegistry := onceRegistry + {onceKey};
      } else if action == "always" {
      } else if action == "module" {
        reg.keys := reg.keys + {key};
        var altKey := (text, cat, 0);
        if altKey in reg.keys {
          return Silent;
        }
        reg.keys := reg.keys + {altKey};
      } else if action == "default" {
        reg.keys := reg.keys + {key};
      } else if action == "custom" {
      } else if scanned {
        return Raised(UnrecognizedAction(action));
      } else {
        return Raised(UnboundLocal);
      }
      var w := Shown(text, cat, c.filename, c.lineno);
      shown := shown + [w];
      r := Emitted(w);
    }

    /**
     * `warn_explicit`.  A missing `registry` is a fresh dict that nobody
     * keeps.  The outcome, the registry and the once-registry are those of
     * `Dispatch.WarnExplicit`; a shown warning is appended to `shown`.
     */
    method WarnExplicit(message: Message, category: Cat, filename: string, lineno: int,
                        moduleName: Option<string>, registry: Registry?, emitModule: Option<string>)
      returns (r: Outcome)
      modifies this`onceRegistry, this`shown, registry
      ensures var s := Dispatch.WarnExplicit(host, FilterStore(),
                                             if registry == null then Memo(0, {}) else old(registry.Contents()),
                                             old(onceRegistry),
                                             Call(message, category, filename, lineno, moduleName, emitModule));
        r == s.outcome && onceRegistry == s.once &&
        (registry != null ==> registry.Contents() == s.memo) &&
        shown == old(shown) + (if r.Emitted? then [r.warning] else [])
    {
      var c := Call(message, category, filename, lineno, moduleName, emitModule);
      var reg := registry;
      if reg == null {
        reg := new Registry();
      }
      if reg.version != version {
        reg.keys := {};
        reg.version := version;
      }
      // a key marked since the last refresh ends the call
      if KeyOf(c) in reg.keys {
        return Silent;
      }
      var choice := Scan(EventOf(c));
      if choice.Err? {
        return Raised(choice.error);
      }
      r := ApplyAction(ActionOf(host, choice.value), |filters| > 0, reg, c);
    }

    /**
     * `warn`, with the frames found by the stack walk as inputs and
     * `registry` the `__warningregistry__` of the call site's globals (null
     * when absent).  Returns the outcome and the registry the globals hold
     * afterwards: `setdefault` creates one only once the call got that far.
     */
    method Warn(message: Message, category: Option<Obj>, site: Option<Frame>, emitter: Option<Globals>,
                sysGlobals: Globals, argv: Option<seq<string>>, registry: Registry?)
      returns (r: Outcome, reg: Registry?)
      modifies this`onceRegistry, this`shown, registry
      ensures PrepareCall(host, message, category, site, emitter, sysGlobals, argv).Err? ==>
        r == Raised(PrepareCall(host, message, category, site, emitter, sysGlobals, argv).error) &&
        reg == registry && onceRegistry == old(onceRegistry) && shown == old(shown) &&
        (registry != null ==> registry.Contents() == old(registry.Contents()))
      ensures PrepareCall(host, message, category, site, emitter, sysGlobals, argv).Ok? ==>
        var c := PrepareCall(host, message, category, site, emitter, sysGlobals, argv).value;
        var s := Dispatch.WarnExplicit(host, FilterStore(),
                                       if registry == null then Memo(0, {}) else old(registry.Contents()),
                                       old(onceRegistry), c);
        reg != null && (registry != null ==> reg == registry) && (registry == null ==> fresh(reg)) &&
        r == s.outcome && onceRegistry == s.once && reg.Contents() == s.memo &&
        shown == old(shown) + (if r.Emitted? then [r.warning] else [])
    {
      var call := PrepareCall(host, message, category, site, emitter, sysGlobals, argv);
      if call.Err? {
        return Raised(call.error), registry;
      }
      reg := registry;
      if reg == null {
        reg := new Registry();
      }
      var c := call.value;
      r := WarnExplicit(c.message, c.category, c.filename, c.lineno, c.moduleName, reg, c.emitModule);
    }
  }
}
