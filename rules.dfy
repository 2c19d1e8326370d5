/**
 * Filter rules of the warnings engine (warn/warn.py): compiled patterns,
 * warning categories, the five- and six-field rule tuples, the host
 * runtime's regex and subclass tests, and the proxy side-table that lets a
 * six-field rule live in a list of five-field tuples.
 */
module Rules {
  import opened Wrappers

  /** A compiled regular expression: its source text and whether `re.I` was given. */
  datatype Pattern = Pattern(source: string, ignoreCase: bool)

  /** A warning category, a Python class, identified by its qualified name. */
  datatype Cat = Cat(name: string)

  /** A value passed where a category is expected: a class, or any other object. */
  datatype Obj = Class(cls: Cat) | NotAClass

  const Warning := Cat("builtins.Warning")
  const UserWarning := Cat("builtins.UserWarning")
  /** The reserved category that marks a sentinel entry. */
  const ProxyWarning := Cat("warn.warn.ProxyWarning")
  /** `re_matchall`: the empty pattern, compiled with `re.I`. */
  const MatchAll := Pattern("", true)

  /**
   * What the model takes from the Python runtime: `Pattern.match` (anchored at
   * the start of the string), `issubclass`, and the `defaultaction` that the
   * engine bound when it was imported.
   */
  datatype Host = Host(
    reMatch: (Pattern, string) -> bool,
    isSub: (Cat, Cat) -> bool,
    defaultAction: string)
  {
    ghost predicate Valid() {
      (forall p: Pattern, s: string :: p.source == "" ==> reMatch(p, s)) &&
      (forall c: Cat :: isSub(c, c)) &&
      (forall a: Cat, b: Cat, c: Cat :: isSub(a, b) && isSub(b, c) ==> isSub(a, c)) &&
      isSub(UserWarning, Warning) &&
      isSub(ProxyWarning, Warning)
    }
  }

  /** The exceptions the modelled code can raise. */
  datatype Error =
    | Escalated(text: string, category: Cat)  // `raise message` under the "error" action
    | UnrecognizedAction(action: string)      // RuntimeError
    | UnboundLocal                            // formatting that RuntimeError before any filter was read
    | KeyError(key: int)                      // `_proxy_map[key]` with no such key
    | TypeError(reason: string)
    | IndexError                              // `sys.argv[0]` on an empty argv
    | AssertionError(reason: string)          // a failed `assert` in `filterwarnings`

  datatype Result<+T> = Ok(value: T) | Err(error: Error)

  /**
   * An entry of `warnings.filters`: a 5-tuple `(action, msg, cat, mod, ln)`
   * or a 6-tuple that adds the emitter pattern `emod`.  `None` patterns
   * match everything; `ln == 0` matches every line.
   */
  datatype Filter =
    | Filter5(action: string, msg: Option<Pattern>, cat: Cat, mod: Option<Pattern>, ln: int)
    | Filter6(action: string, msg: Option<Pattern>, cat: Cat, mod: Option<Pattern>, ln: int,
              emod: Option<Pattern>)

  /** The emitter pattern of a rule; a 5-tuple has none. */
  function EmitPattern(f: Filter): (r: Option<Pattern>) {
    match f
    case Filter5(_, _, _, _, _) => None
    case Filter6(_, _, _, _, _, e) => e
  }

  /** The five-field entry that stands for the side-table rule under `key`. */
  function Sentinel(key: int): (r: Filter) {
    Filter5("custom", Some(MatchAll), ProxyWarning, Some(MatchAll), key)
  }

  /** The keys of the side-table are exactly 1, 2, ..., its size. */
  ghost predicate Dense(proxy: map<int, Filter>) {
    forall k :: k in proxy <==> 1 <= k <= |proxy|
  }

  /**
   * `_set_proxy_filter` on a side-table: a 6-tuple is stored under
   * `len(_proxy_map) + 1` and replaced by its sentinel; a shorter tuple is
   * kept as it is.  Returns the entry to put in the list and the new table.
   */
  function SetProxy(proxy: map<int, Filter>, item: Filter): (r: (Filter, map<int, Filter>)) {
    if item.Filter6? then
      var key := |proxy| + 1;
      (Sentinel(key), proxy[key := item])
    else
      (item, proxy)
  }

  /** `_get_proxy_filter`: an entry whose category is `ProxyWarning` is looked up by its slot 4. */
  function GetProxy(proxy: map<int, Filter>, entry: Filter): (r: Result<Filter>) {
    if entry.cat == ProxyWarning then
      if entry.ln in proxy then Ok(proxy[entry.ln]) else Err(KeyError(entry.ln))
    else
      Ok(entry)
  }

  /** `p is None or p.match(s)`. */
  predicate MatchOpt(h: Host, p: Option<Pattern>, s: string) {
    p.None? || h.reMatch(p.value, s)
  }

  /**
   * What a warning looks like to the filters: its text and category, the
   * module of the call site, the emitter module (`None` when `warn_explicit`
   * was called without one) and the line.
   */
  datatype Event = Event(text: string, category: Cat, moduleName: string, emitModule: Option<string>,
                         lineno: int)

  /**
   * The five-way test of one resolved rule against an event, evaluated left
   * to right as Python's `and` does: matching a rule's emitter pattern
   * against a missing emitter module raises TypeError.
   */
  function Test(h: Host, f: Filter, ev: Event): (r: Result<bool>) {
    if !(MatchOpt(h, f.msg, ev.text) && h.isSub(ev.category, f.cat) && MatchOpt(h, f.mod, ev.moduleName)) then
      Ok(false)
    else
      match EmitPattern(f)
      case None => Ok(f.ln == 0 || ev.lineno == f.ln)
      case Some(p) =>
        match ev.emitModule
        case None => Err(TypeError("expected string or bytes-like object"))
        case Some(e) => Ok(h.reMatch(p, e) && (f.ln == 0 || ev.lineno == f.ln))
  }

  /** A rule matches an event when all five conditions hold. */
  ghost predicate AllConditions(h: Host, f: Filter, ev: Event) {
    MatchOpt(h, f.msg, ev.text) &&
    h.isSub(ev.category, f.cat) &&
    MatchOpt(h, f.mod, ev.moduleName) &&
    (EmitPattern(f).None? || (ev.emitModule.Some? && h.reMatch(EmitPattern(f).value, ev.emitModule.value))) &&
    (f.ln == 0 || f.ln == ev.lineno)
  }

  /** The test accepts exactly the rules whose five conditions hold, and fails only on a missing emitter. */
  lemma TestMeaning(h: Host, f: Filter, ev: Event)
    ensures Test(h, f, ev) == Ok(true) <==> AllConditions(h, f, ev)
    ensures Test(h, f, ev).Err? <==>
      MatchOpt(h, f.msg, ev.text) && h.isSub(ev.category, f.cat) && MatchOpt(h, f.mod, ev.moduleName) &&
      EmitPattern(f).Some? && ev.emitModule.None?
  {
  }

  /**
   * Storing a rule and reading it back gives the rule again, unless it is a
   * 5-tuple that itself claims the reserved category.  A 5-tuple passes through and the
   * table is untouched; a 6-tuple becomes a sentinel whose key is fresh and
   * the table gains exactly that key.  The table stays dense.
   */
  lemma ProxyRoundTrip(proxy: map<int, Filter>, item: Filter)
    requires Dense(proxy)
    ensures item.Filter6? || item.cat != ProxyWarning ==>
      GetProxy(SetProxy(proxy, item).1, SetProxy(proxy, item).0) == Ok(item)
    ensures item.Filter5? ==> SetProxy(proxy, item) == (item, proxy)
    ensures item.Filter6? ==>
      var (entry, proxy') := SetProxy(proxy, item);
      entry.Filter5? && entry.cat == ProxyWarning && entry.ln == |proxy| + 1 &&
      entry.ln !in proxy && proxy'.Keys == proxy.Keys + {entry.ln}
    ensures Dense(SetProxy(proxy, item).1)
  {
    if item.Filter6? {
      var key := |proxy| + 1;
      assert key !in proxy;
      var proxy' := proxy[key := item];
      assert |proxy'| == |proxy| + 1;
    }
  }

  /**
   * The side-table is append-only: every entry that resolved before a store
   * resolves to the same rule afterwards.
   */
  lemma SetProxyKeepsResolutions(proxy: map<int, Filter>, item: Filter, entry: Filter)
    requires Dense(proxy)
    requires GetProxy(proxy, entry).Ok?
    ensures GetProxy(SetProxy(proxy, item).1, entry) == GetProxy(proxy, entry)
  {
  }

  /** A sentinel resolves through the table; a key that was never issued raises KeyError. */
  lemma SentinelResolution(proxy: map<int, Filter>, key: int)
    requires Dense(proxy)
    ensures 1 <= key <= |proxy| ==> GetProxy(proxy, Sentinel(key)) == Ok(proxy[key])
    ensures !(1 <= key <= |proxy|) ==> GetProxy(proxy, Sentinel(key)) == Err(KeyError(key))
  {
  }
}
