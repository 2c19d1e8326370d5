/**
 * Registering filters (`filterwarnings` in warn/warn.py): validation of the
 * arguments, the tuple built from them, where it goes in the filter list, and
 * the version bump that invalidates every call site's memo.
 */
module Registration {
  import opened Wrappers
  import opened Rules

  /** The filter list, the proxy side-table and `warnings._filters_version`. */
  datatype Store = Store(filters: seq<Filter>, proxy: map<int, Filter>, version: int)

  /** The actions `filterwarnings` accepts. */
  const ACTIONS: set<string> := {"error", "ignore", "always", "default", "module", "once"}

  /** The arguments of `filterwarnings(action, message, category, module, lineno, append, emodule)`. */
  datatype Args = Args(action: string, message: string, category: Obj, moduleRe: string, lineno: int,
                       append: bool, emodule: string)

  /** The same arguments with every default of the Python signature. */
  function DefaultArgs(action: string): (r: Args) {
    Args(action, "", Class(Warning), "", 0, false, "")
  }

  /** The assertions of `filterwarnings`, checked in source order; `None` when all hold. */
  function Validate(h: Host, a: Args): (r: Option<Error>) {
    if a.action !in ACTIONS then Some(AssertionError("invalid action"))
    else if !a.category.Class? then Some(AssertionError("category must be a class"))
    else if !h.isSub(a.category.cls, Warning) then Some(AssertionError("category must be a Warning subclass"))
    else if a.lineno < 0 then Some(AssertionError("lineno must be an int >= 0"))
    else None
  }

  /**
   * The rule tuple: the message regex is compiled with `re.I`, the module and
   * emitter regexes without it; a non-empty `emodule` adds the sixth field.
   */
  function MakeRule(a: Args): (r: Filter)
    requires a.category.Class?
  {
    var msg := Some(Pattern(a.message, true));
    var mod := Some(Pattern(a.moduleRe, false));
    if a.emodule != "" then
      Filter6(a.action, msg, a.category.cls, mod, a.lineno, Some(Pattern(a.emodule, false)))
    else
      Filter5(a.action, msg, a.category.cls, mod, a.lineno)
  }

  /**
   * `filterwarnings`: validate, pass the rule through the side-table, insert
   * the resulting entry at the front (or append it), bump the version.
   */
  function Register(h: Host, st: Store, a: Args): (r: Result<Store>) {
    match Validate(h, a)
    case Some(e) => Err(e)
    case None =>
      var (entry, proxy') := SetProxy(st.proxy, MakeRule(a));
      var filters' := if a.append then st.filters + [entry] else [entry] + st.filters;
      Ok(Store(filters', proxy', st.version + 1))
  }

  /** The entry a registration put in the list: the first one, or the last one when appending. */
  function NewIndex(st: Store, a: Args): (r: nat) {
    if a.append then |st.filters| else 0
  }

  /** Registration fails exactly on a bad action, a non-Warning category or a negative line, and then changes nothing. */
  lemma RegisterRejects(h: Host, st: Store, a: Args)
    ensures Register(h, st, a).Err? <==>
      a.action !in ACTIONS || !a.category.Class? || !h.isSub(a.category.cls, Warning) || a.lineno < 0
    ensures Register(h, st, a).Err? ==> Register(h, st, a).error.AssertionError?
  {
  }

  /** The shape of the stored rule: six fields exactly when an emitter pattern is given, and which regexes ignore case. */
  lemma RuleShape(a: Args)
    requires a.category.Class?
    ensures MakeRule(a).Filter6? <==> a.emodule != ""
    ensures MakeRule(a).msg == Some(Pattern(a.message, true))
    ensures MakeRule(a).mod == Some(Pattern(a.moduleRe, false))
    ensures a.emodule != "" ==> EmitPattern(MakeRule(a)) == Some(Pattern(a.emodule, false))
    ensures MakeRule(a).action == a.action && MakeRule(a).cat == a.category.cls && MakeRule(a).ln == a.lineno
  {
  }

  /**
   * A successful registration bumps the version by exactly one and grows the
   * list by exactly one entry, at index 0 or at the end; the other entries
   * keep their order and still resolve to the same rules.  The new entry
   * resolves to the rule built from the arguments (unless that rule is a
   * 5-tuple claiming the reserved category), and the side-table stays dense.
   */
  lemma RegisterEffect(h: Host, st: Store, a: Args)
    requires Dense(st.proxy)
    requires Register(h, st, a).Ok?
    ensures var st' := Register(h, st, a).value;
      st'.version == st.version + 1 &&
      |st'.filters| == |st.filters| + 1 &&
      (a.append ==> st'.filters[..|st.filters|] == st.filters) &&
      (!a.append ==> st'.filters[1..] == st.filters) &&
      Dense(st'.proxy) &&
      (forall k :: k in st.proxy ==> k in st'.proxy && st'.proxy[k] == st.proxy[k]) &&
      (a.emodule != "" || a.category.cls != ProxyWarning ==>
         GetProxy(st'.proxy, st'.filters[NewIndex(st, a)]) == Ok(MakeRule(a)))
    ensures var st' := Register(h, st, a).value;
      forall i :: 0 <= i < |st.filters| && GetProxy(st.proxy, st.filters[i]).Ok? ==>
        GetProxy(st'.proxy, st.filters[i]) == GetProxy(st.proxy, st.filters[i])
  {
    var rule := MakeRule(a);
    ProxyRoundTrip(st.proxy, rule);
    forall i | 0 <= i < |st.filters| && GetProxy(st.proxy, st.filters[i]).Ok?
      ensures GetProxy(Register(h, st, a).value.proxy, st.filters[i]) == GetProxy(st.proxy, st.filters[i])
    {
      SetProxyKeepsResolutions(st.proxy, rule, st.filters[i]);
    }
  }

  /**
   * As written, a rule registered without an emitter pattern but with the
   * category `ProxyWarning` is read back as a sentinel: with line 0 its
   * lookup raises KeyError, because side-table keys start at 1.
   */
  lemma ProxyCategoryMisread(h: Host, st: Store, action: string)
    requires h.Valid() && Dense(st.proxy)
    requires action in ACTIONS
    ensures var a := Args(action, "", Class(ProxyWarning), "", 0, false, "");
      Register(h, st, a).Ok? &&
      GetProxy(Register(h, st, a).value.proxy, Register(h, st, a).value.filters[0]) == Err(KeyError(0))
  {
  }

  /**
   * The silent side of the same misreading: when the line of such a rule is
   * a key of the side-table, the rule reads back as the emitter rule stored
   * under that key, so the registered rule itself is never consulted.
   */
  lemma ProxyCategoryAliases(h: Host, st: Store, action: string, k: int)
    requires h.Valid() && Dense(st.proxy)
    requires action in ACTIONS
    requires 1 <= k <= |st.proxy|
    requires st.proxy[k].Filter6?  // `SetProxy` stores only six-field rules
    ensures var a := Args(action, "", Class(ProxyWarning), "", k, false, "");
      Register(h, st, a).Ok? &&
      GetProxy(Register(h, st, a).value.proxy, Register(h, st, a).value.filters[0]) == Ok(st.proxy[k]) &&
      st.proxy[k] != MakeRule(a)
  {
    var a := Args(action, "", Class(ProxyWarning), "", k, false, "");
    RegisterEffect(h, st, a);
  }

  /**
   * `filterwarnings(action)` with every other argument left at its default
   * registers a five-field rule that every Warning matches, at every line,
   * from every module and emitter.
   */
  lemma DefaultRuleMatchesAll(h: Host, action: string, ev: Event)
    requires h.Valid()
    requires h.isSub(ev.category, Warning)
    ensures MakeRule(DefaultArgs(action)).Filter5?
    ensures AllConditions(h, MakeRule(DefaultArgs(action)), ev)
  {
    var r := MakeRule(DefaultArgs(action));
    assert r.msg.value.source == "" && r.mod.value.source == "";
  }
}
