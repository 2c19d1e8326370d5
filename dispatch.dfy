/**
 * The memoised dispatcher (`warn_explicit` in warn/warn.py) as a function of
 * the filter store, the call site's registry, the process-wide once-registry
 * and the call: memo invalidation, the fast path, first-match selection over
 * the resolved filters, and the effect of each action.
 */
module Dispatch {
  import opened Wrappers
  import opened Rules
  import opened Registration

  /** A warning as passed in: a text, or an instance of a Warning class (which fixes the category). */
  datatype Message = Text(text: string) | Instance(cls: Cat, text: string)

  /** A memo key `(text, category, lineno)`. */
  type Key = (string, Cat, int)
  /** A once-registry key `(text, category)`. */
  type OnceKey = (string, Cat)

  /** A call site's `__warningregistry__`: its `'version'` stamp (0 when absent) and its marked keys. */
  datatype Memo = Memo(version: int, keys: set<Key>)

  /** The arguments of `warn_explicit`; `None` stands for an omitted `module` or `emit_module`. */
  datatype Call = Call(message: Message, category: Cat, filename: string, lineno: int,
                       moduleName: Option<string>, emitModule: Option<string>)

  /** What `showwarning` receives. */
  datatype Shown = Shown(text: string, category: Cat, filename: string, lineno: int)

  datatype Outcome = Silent | Emitted(warning: Shown) | Raised(error: Error)

  /** The result of one call: the outcome, the action applied (if the filters were consulted and resolved), the new memo and once-registry. */
  datatype Step = Step(outcome: Outcome, action: Option<string>, memo: Memo, once: set<OnceKey>)

  /** ASCII lower-casing. */
  function LowerChar(c: char): (r: char) {
    if 'A' <= c <= 'Z' then (c as int + 32) as char else c
  }

  function Lower(s: string): (r: string)
    ensures |r| == |s|
  {
    seq(|s|, i requires 0 <= i < |s| => LowerChar(s[i]))
  }

  /** `s.lower().endswith(suffix)` for an all-lower-case suffix. */
  predicate EndsWithCI(s: string, suffix: string) {
    |s| >= |suffix| && Lower(s[|s| - |suffix|..]) == suffix
  }

  /** The module name `warn_explicit` derives when none is given. */
  function ModuleFromFilename(filename: string): (r: string) {
    var m := if filename == "" then "<unknown>" else filename;
    if EndsWithCI(m, ".py") then m[..|m| - 3] else m
  }

  /**
   * The derived module name is `"<unknown>"` for an empty file name, and
   * otherwise the file name itself or the file name less a final `.py` in
   * any case.
   */
  lemma ModuleFromFilenameMeaning(filename: string)
    ensures filename == "" ==> ModuleFromFilename(filename) == "<unknown>"
    ensures filename != "" ==>
      var m := ModuleFromFilename(filename);
      (EndsWithCI(filename, ".py") ==> m + filename[|filename| - 3..] == filename && |m| + 3 == |filename|) &&
      (!EndsWithCI(filename, ".py") ==> m == filename)
  {
    if filename == "" {
      assert !EndsWithCI("<unknown>", ".py") by {
        assert Lower("<unknown>"[6..])[0] != '.';
      }
    }
  }

  function ModuleOf(c: Call): (r: string) {
    match c.moduleName
    case Some(m) => m
    case None => ModuleFromFilename(c.filename)
  }

  function TextOf(c: Call): (r: string) {
    c.message.text
  }

  function CategoryOf(c: Call): (r: Cat) {
    if c.message.Instance? then c.message.cls else c.category
  }

  function KeyOf(c: Call): (r: Key) {
    (TextOf(c), CategoryOf(c), c.lineno)
  }

  /** The "any line" key used by the `module` action. */
  function AltKey(c: Call): (r: Key) {
    (TextOf(c), CategoryOf(c), 0)
  }

  function EventOf(c: Call): (r: Event) {
    Event(TextOf(c), CategoryOf(c), ModuleOf(c), c.emitModule, c.lineno)
  }

  /** A memo whose stamp differs from the store's version is cleared and restamped. */
  function Refresh(memo: Memo, version: int): (r: Memo) {
    if memo.version != version then Memo(version, {}) else memo
  }

  function Mark(m: Memo, k: Key): (r: Memo) {
    m.(keys := m.keys + {k})
  }

  /** The outcome of the filter scan: the index and resolved rule that matched, or none. */
  datatype Choice = Picked(index: nat, rule: Filter) | NoMatch

  /**
   * The `for ... break / else` scan from index `i`: each entry is resolved
   * through the side-table and tested; the first that matches is chosen.
   */
  function SelectFrom(h: Host, proxy: map<int, Filter>, fs: seq<Filter>, ev: Event, i: nat): (r: Result<Choice>)
    requires i <= |fs|
    decreases |fs| - i
  {
    if i == |fs| then Ok(NoMatch)
    else
      match GetProxy(proxy, fs[i])
      case Err(e) => Err(e)
      case Ok(r) =>
        match Test(h, r, ev)
        case Err(e) => Err(e)
        case Ok(hit) => if hit then Ok(Picked(i, r)) else SelectFrom(h, proxy, fs, ev, i + 1)
  }

  function Select(h: Host, proxy: map<int, Filter>, fs: seq<Filter>, ev: Event): (r: Result<Choice>) {
    SelectFrom(h, proxy, fs, ev, 0)
  }

  /** An entry the scan goes past: it resolves, and the resolved rule does not match. */
  predicate Passes(h: Host, proxy: map<int, Filter>, f: Filter, ev: Event) {
    GetProxy(proxy, f).Ok? && Test(h, GetProxy(proxy, f).value, ev) == Ok(false)
  }

  /** The exception an entry raises when the scan reaches it, if any. */
  function EntryError(h: Host, proxy: map<int, Filter>, f: Filter, ev: Event): (r: Option<Error>) {
    match GetProxy(proxy, f)
    case Err(e) => Some(e)
    case Ok(r) => if Test(h, r, ev).Err? then Some(Test(h, r, ev).error) else None
  }

  /** The scan picks entry `k` exactly when it matches and every entry before it resolves and does not match. */
  lemma {:induction false} SelectFromPicked(h: Host, proxy: map<int, Filter>, fs: seq<Filter>, ev: Event,
                                            i: nat, k: nat, r: Filter)
    requires i <= |fs|
    ensures SelectFrom(h, proxy, fs, ev, i) == Ok(Picked(k, r)) <==>
      i <= k < |fs| && GetProxy(proxy, fs[k]) == Ok(r) && Test(h, r, ev) == Ok(true) &&
      forall j :: i <= j < k ==> Passes(h, proxy, fs[j], ev)
    decreases |fs| - i
  {
    if i < |fs| && Passes(h, proxy, fs[i], ev) {
      SelectFromPicked(h, proxy, fs, ev, i + 1, k, r);
    }
  }

  /** The scan finds nothing exactly when every entry resolves and does not match. */
  lemma {:induction false} SelectFromNoMatch(h: Host, proxy: map<int, Filter>, fs: seq<Filter>, ev: Event, i: nat)
    requires i <= |fs|
    ensures SelectFrom(h, proxy, fs, ev, i) == Ok(NoMatch) <==>
      forall j :: i <= j < |fs| ==> Passes(h, proxy, fs[j], ev)
    decreases |fs| - i
  {
    if i < |fs| && Passes(h, proxy, fs[i], ev) {
      SelectFromNoMatch(h, proxy, fs, ev, i + 1);
    }
  }

  /** The scan raises `e` exactly when it reaches, past entries that do not match, an entry that raises `e`. */
  lemma {:induction false} SelectFromError(h: Host, proxy: map<int, Filter>, fs: seq<Filter>, ev: Event,
                                           i: nat, e: Error)
    requires i <= |fs|
    ensures SelectFrom(h, proxy, fs, ev, i) == Err(e) <==>
      exists k :: i <= k < |fs| && EntryError(h, proxy, fs[k], ev) == Some(e) &&
        forall j :: i <= j < k ==> Passes(h, proxy, fs[j], ev)
    decreases |fs| - i
  {
    if i < |fs| {
      if Passes(h, proxy, fs[i], ev) {
        SelectFromError(h, proxy, fs, ev, i + 1, e);
        if SelectFrom(h, proxy, fs, ev, i) == Err(e) {
          var k :| i + 1 <= k < |fs| && EntryError(h, proxy, fs[k], ev) == Some(e) &&
            forall j :: i + 1 <= j < k ==> Passes(h, proxy, fs[j], ev);
          assert forall j :: i <= j < k ==> Passes(h, proxy, fs[j], ev);
        }
      }
    }
  }

  /** The action a choice stands for; with no match, the host's default action. */
  function ActionOf(h: Host, ch: Choice): (r: string) {
    match ch
    case Picked(_, r) => r.action
    case NoMatch => h.defaultAction
  }

  /** `warn_explicit`: invalidate a stale memo, take the fast path, or scan the filters and apply the action. */
  function WarnExplicit(h: Host, st: Store, memo: Memo, once: set<OnceKey>, c: Call): (r: Step) {
    var m := Refresh(memo, st.version);
    if KeyOf(c) in m.keys then Step(Silent, None, m, once)
    else
      match Select(h, st.proxy, st.filters, EventOf(c))
      case Err(e) => Step(Raised(e), None, m, once)
      case Ok(ch) => Apply(ActionOf(h, ch), |st.filters| > 0, m, once, c)
  }

  /**
   * The effect of an action on the memo and the once-registry, and whether
   * the warning is shown or raised.  `scanned` says whether the loop variable
   * `item` was ever bound, which the RuntimeError message needs.
   */
  function Apply(action: string, scanned: bool, m: Memo, once: set<OnceKey>, c: Call): (r: Step) {
    var key := KeyOf(c);
    var w := Shown(TextOf(c), CategoryOf(c), c.filename, c.lineno);
    if action == "ignore" then Step(Silent, Some(action), Mark(m, key), once)
    else if action == "error" then Step(Raised(Escalated(TextOf(c), CategoryOf(c))), Some(action), m, once)
    else if action == "once" then
      var onceKey := (TextOf(c), CategoryOf(c));
      if onceKey in once then Step(Silent, Some(action), Mark(m, key), once)
      else Step(Emitted(w), Some(action), Mark(m, key), once + {onceKey})
    else if action == "always" then Step(Emitted(w), Some(action), m, once)
    else if action == "module" then
      var m1 := Mark(m, key);
      if AltKey(c) in m1.keys then Step(Silent, Some(action), m1, once)
      else Step(Emitted(w), Some(action), Mark(m1, AltKey(c)), once)
    else if action == "default" then Step(Emitted(w), Some(action), Mark(m, key), once)
    else if action == "custom" then Step(Emitted(w), Some(action), m, once)
    else if scanned then Step(Raised(UnrecognizedAction(action)), Some(action), m, once)
    else Step(Raised(UnboundLocal), Some(action), m, once)
  }

  /**
   * After a call the memo carries the store's version.  A stale memo loses
   * every key it had (only this call's key and any-line key can be in it);
   * a current one only gains keys.  The once-registry only grows.
   */
  lemma MemoRefreshed(h: Host, st: Store, memo: Memo, once: set<OnceKey>, c: Call)
    ensures var s := WarnExplicit(h, st, memo, once, c);
      s.memo.version == st.version &&
      (memo.version != st.version ==> s.memo.keys <= {KeyOf(c), AltKey(c)}) &&
      (memo.version == st.version ==> memo.keys <= s.memo.keys) &&
      once <= s.once && s.once <= once + {(TextOf(c), CategoryOf(c))}
  {
  }

  /** A stale memo behaves exactly like a fresh, empty registry (stamp 0, below every version). */
  lemma StaleMemoForgotten(h: Host, st: Store, memo: Memo, once: set<OnceKey>, c: Call)
    requires st.version >= 1
    requires memo.version != st.version
    ensures WarnExplicit(h, st, memo, once, c) == WarnExplicit(h, st, Memo(0, {}), once, c)
  {
  }

  /** A key already marked in the (refreshed) memo: nothing is shown or raised and nothing changes. */
  lemma MarkedKeyIsSilent(h: Host, st: Store, memo: Memo, once: set<OnceKey>, c: Call)
    requires KeyOf(c) in Refresh(memo, st.version).keys
    ensures WarnExplicit(h, st, memo, once, c) == Step(Silent, None, Refresh(memo, st.version), once)
  {
  }

  /**
   * With the key unmarked, the action applied is that of the first entry
   * (after resolving sentinels) whose five conditions hold.
   */
  lemma FirstMatchDecides(h: Host, st: Store, memo: Memo, once: set<OnceKey>, c: Call, k: nat)
    requires KeyOf(c) !in Refresh(memo, st.version).keys
    requires k < |st.filters| && GetProxy(st.proxy, st.filters[k]).Ok?
    requires AllConditions(h, GetProxy(st.proxy, st.filters[k]).value, EventOf(c))
    requires forall j :: 0 <= j < k ==> Passes(h, st.proxy, st.filters[j], EventOf(c))
    ensures WarnExplicit(h, st, memo, once, c).action == Some(GetProxy(st.proxy, st.filters[k]).value.action)
  {
    var r := GetProxy(st.proxy, st.filters[k]).value;
    TestMeaning(h, r, EventOf(c));
    SelectFromPicked(h, st.proxy, st.filters, EventOf(c), 0, k, r);
  }

  /** With the key unmarked and no entry matching, the host's default action applies. */
  lemma DefaultWhenNoMatch(h: Host, st: Store, memo: Memo, once: set<OnceKey>, c: Call)
    requires KeyOf(c) !in Refresh(memo, st.version).keys
    requires forall j :: 0 <= j < |st.filters| ==> Passes(h, st.proxy, st.filters[j], EventOf(c))
    ensures WarnExplicit(h, st, memo, once, c).action == Some(h.defaultAction)
  {
    SelectFromNoMatch(h, st.proxy, st.filters, EventOf(c), 0);
  }

  /**
   * The effect of each action, relative to the refreshed memo `m`:
   * ignore marks and stays silent; error raises and marks nothing; once
   * marks and shows only a new (text, category), which it records; always
   * shows and marks nothing; module marks the key and the any-line key and
   * shows only if the any-line key was unmarked and the line is not 0;
   * default marks and shows; custom shows; anything else is a RuntimeError
   * (an UnboundLocalError while building it when the filter list is empty).
   */
  lemma ActionEffects(h: Host, st: Store, memo: Memo, once: set<OnceKey>, c: Call, a: string)
    requires WarnExplicit(h, st, memo, once, c).action == Some(a)
    ensures var s := WarnExplicit(h, st, memo, once, c);
      var m := Refresh(memo, st.version);
      var w := Shown(TextOf(c), CategoryOf(c), c.filename, c.lineno);
      KeyOf(c) !in m.keys &&
      (a == "ignore" ==> s.outcome == Silent && s.memo.keys == m.keys + {KeyOf(c)} && s.once == once) &&
      (a == "error" ==> s.outcome == Raised(Escalated(TextOf(c), CategoryOf(c))) && s.memo == m && s.once == once) &&
      (a == "once" ==>
        s.memo.keys == m.keys + {KeyOf(c)} &&
        (s.outcome == Emitted(w) <==> (TextOf(c), CategoryOf(c)) !in once) &&
        (s.outcome != Emitted(w) ==> s.outcome == Silent) &&
        s.once == once + {(TextOf(c), CategoryOf(c))}) &&
      (a == "always" ==> s.outcome == Emitted(w) && s.memo == m && s.once == once) &&
      (a == "module" ==>
        s.memo.keys == m.keys + {KeyOf(c), AltKey(c)} && s.once == once &&
        (s.outcome == Emitted(w) <==> AltKey(c) !in m.keys && c.lineno != 0) &&
        (s.outcome != Emitted(w) ==> s.outcome == Silent)) &&
      (a == "default" ==> s.outcome == Emitted(w) && s.memo.keys == m.keys + {KeyOf(c)} && s.once == once) &&
      (a == "custom" ==> s.outcome == Emitted(w) && s.memo == m && s.once == once) &&
      (a !in ACTIONS && a != "custom" ==>
        s.outcome == Raised(if |st.filters| > 0 then UnrecognizedAction(a) else UnboundLocal) &&
        s.memo == m && s.once == once)
  {
  }

  /** The error action marks nothing, so repeating the same call raises again, with nothing changed. */
  lemma ErrorRaisesAgain(h: Host, st: Store, memo: Memo, once: set<OnceKey>, c: Call)
    requires WarnExplicit(h, st, memo, once, c).action == Some("error")
    ensures var s := WarnExplicit(h, st, memo, once, c);
      s.outcome == Raised(Escalated(TextOf(c), CategoryOf(c))) &&
      WarnExplicit(h, st, s.memo, s.once, c) == s
  {
  }

  /**
   * Registering a rule at the front makes its action decide any call it
   * matches, even one whose key the call site had marked before: the version
   * bump makes that memo stale.
   */
  lemma NewFrontRuleDecides(h: Host, st: Store, a: Args, memo: Memo, once: set<OnceKey>, c: Call)
    requires Dense(st.proxy) && memo.version <= st.version
    requires Register(h, st, a).Ok? && !a.append
    requires a.emodule != "" || a.category.cls != ProxyWarning
    requires AllConditions(h, MakeRule(a), EventOf(c))
    ensures WarnExplicit(h, Register(h, st, a).value, memo, once, c).action == Some(a.action)
  {
    var st' := Register(h, st, a).value;
    RegisterEffect(h, st, a);
    assert NewIndex(st, a) == 0;
    FirstMatchDecides(h, st', memo, once, c, 0);
  }

  /** One warning site in a run: the store it sees, its registry, and the call. */
  datatype Site = Site(store: Store, memo: Memo, call: Call)

  predicate EmittedAs(s: Step, action: string, p: OnceKey) {
    s.action == Some(action) && s.outcome.Emitted? && (s.outcome.warning.text, s.outcome.warning.category) == p
  }

  /** How many calls of a run, sharing only the once-registry, show `p` under the once action. */
  function OnceEmissions(h: Host, sites: seq<Site>, once: set<OnceKey>, p: OnceKey): (r: nat)
    decreases |sites|
  {
    if sites == [] then 0
    else
      var s := WarnExplicit(h, sites[0].store, sites[0].memo, once, sites[0].call);
      (if EmittedAs(s, "once", p) then 1 else 0) + OnceEmissions(h, sites[1..], s.once, p)
  }

  /**
   * The once action shows a given (text, category) at most once for the
   * lifetime of the once-registry, whatever the stores, registries and
   * calls in between, and never if it is already recorded.
   */
  lemma {:induction false} OnceEmitsAtMostOnce(h: Host, sites: seq<Site>, once: set<OnceKey>, p: OnceKey)
    ensures OnceEmissions(h, sites, once, p) <= if p in once then 0 else 1
    decreases |sites|
  {
    if sites != [] {
      var s := WarnExplicit(h, sites[0].store, sites[0].memo, once, sites[0].call);
      MemoRefreshed(h, sites[0].store, sites[0].memo, once, sites[0].call);
      if EmittedAs(s, "once", p) {
        ActionEffects(h, sites[0].store, sites[0].memo, once, sites[0].call, "once");
      }
      OnceEmitsAtMostOnce(h, sites[1..], s.once, p);
    }
  }

  /** How many of a sequence of calls from one call site, against one store, show `p` under the module action. */
  function ModuleEmissions(h: Host, st: Store, memo: Memo, once: set<OnceKey>, calls: seq<Call>,
                           p: OnceKey): (r: nat)
    decreases |calls|
  {
    if calls == [] then 0
    else
      var s := WarnExplicit(h, st, memo, once, calls[0]);
      (if EmittedAs(s, "module", p) then 1 else 0) + ModuleEmissions(h, st, s.memo, s.once, calls[1..], p)
  }

  /**
   * While the store does not change, the module action shows a given
   * (text, category) at most once per call site, whatever the lines, and
   * never once its any-line key is marked in a current memo.
   */
  lemma {:induction false} ModuleEmitsAtMostOnce(h: Host, st: Store, memo: Memo, once: set<OnceKey>,
                                                 calls: seq<Call>, p: OnceKey)
    ensures ModuleEmissions(h, st, memo, once, calls, p) <=
      if memo.version == st.version && (p.0, p.1, 0) in memo.keys then 0 else 1
    decreases |calls|
  {
    if calls != [] {
      var s := WarnExplicit(h, st, memo, once, calls[0]);
      MemoRefreshed(h, st, memo, once, calls[0]);
      if EmittedAs(s, "module", p) {
        ActionEffects(h, st, memo, once, calls[0], "module");
      }
      ModuleEmitsAtMostOnce(h, st, s.memo, s.once, calls[1..], p);
    }
  }
}
