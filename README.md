# Emitter-aware warnings filter engine, in Dafny

This project models `warn/warn.py`, a drop-in replacement for the filter
engine of Python's `warnings` module that adds one more thing a filter can
match on: the *emitter* module, the module responsible for a warning as
opposed to the module whose line issued it.  It models the three stateful
pieces of that file and proves their properties:

- **the filter store** (`filterwarnings`, `_filters_mutated`,
  `_set_proxy_filter`, `_get_proxy_filter`): rules are 5-tuples
  `(action, msg, cat, mod, ln)` in an ordered list; a rule with an emitter
  pattern is a 6-tuple, which is kept in an append-only side table
  (`_proxy_map`) under the fresh key `len(_proxy_map) + 1` while a 5-field
  sentinel `('custom', re_matchall, ProxyWarning, re_matchall, key)` takes its
  place in the list.  Every registration bumps a global version counter.
- **the memoised dispatcher** (`warn_explicit`): a call site's
  `__warningregistry__` is cleared and restamped when its version is stale;
  a key `(text, category, lineno)` already marked there short-circuits;
  otherwise the first filter (after resolving sentinels) whose message,
  category, module, emitter and line conditions all hold decides the action,
  and the action decides what is marked, what is recorded in the process-wide
  once-registry, and whether the warning is shown or raised.
- **the pre-processing in `warn`**: category default and check, the module
  names of the call site and the emitter, and the call site's file name.

Modules: `Rules` (patterns, categories, filter tuples, the host runtime's
regex and subclass tests as the `Host` datatype, the side table),
`Registration` (`filterwarnings` as a function on the store), `Dispatch`
(`warn_explicit` as a function on store, registry and once-registry, and the
lemmas about it), `Entry` (the pure part of `warn`), and `Warnings`: the
classes `Engine` (the module-level state: filter list, version, side table,
once-registry, and the warnings handed to `showwarning`) and `Registry` (a
call site's `__warningregistry__`), whose methods update those fields in
place and are proved to agree with the functions.

Two behaviours of the code as written are kept and stated as lemmas:

- `Registration.ProxyCategoryMisread` and `Registration.ProxyCategoryAliases`:
  a rule registered with the category `ProxyWarning` and no emitter pattern is
  read back as a sentinel, keyed by its line number.  It raises `KeyError`
  when the line is not a key of the side table (line 0, for instance);
  otherwise it silently reads back as the emitter rule stored under that key.
- `Dispatch.ActionEffects`: under the `module` action a call at line 0 is
  never shown.  That key and the any-line key are then the same, and the key
  is marked before the any-line key is checked.

Only the message regex is compiled with `re.I`; the module and emitter
regexes are not (warn/warn.py:257-261).  Nothing in warn/warn.py clears the
filter list or the side table.  The `custom` action is reachable only through
a rule put in the list by other means, and it shows the warning without
marking anything.

## Model

| member | source | states |
|---|---|---|
| `Rules.TestMeaning` | warn/warn.py:62-74 | a resolved rule matches exactly when its message pattern is absent or matches, the category is a subclass, its module pattern is absent or matches, its emitter pattern is absent or matches the emitter, and its line is 0 or equal; the test raises only when an emitter pattern meets a missing emitter module |
| `Rules.ProxyRoundTrip` | warn/warn.py:214-229 | reading back a stored rule gives the rule (except a 5-tuple claiming `ProxyWarning`); a 5-tuple passes through with the table unchanged; a 6-tuple becomes a `ProxyWarning` sentinel whose key `len+1` was not in the table, the table gains exactly that key, and its keys stay 1..n |
| `Rules.SetProxyKeepsResolutions` | warn/warn.py:217-219 | the side table is append-only: every entry that resolved before a store resolves to the same rule after it |
| `Rules.SentinelResolution` | warn/warn.py:224-227 | a sentinel with a key in 1..n resolves to the stored rule; any other key raises `KeyError` |
| `Registration.RegisterRejects` | warn/warn.py:248-255 | `filterwarnings` fails, with an assertion error, exactly when the action is not one of the six, the category is not a Warning class, or the line is negative |
| `Registration.RuleShape` | warn/warn.py:256-261 | the stored rule has six fields exactly when `emodule` is non-empty; the message regex has `re.I` and the module and emitter regexes do not; action, category and line are copied |
| `Registration.RegisterEffect` | warn/warn.py:262-266 | a registration bumps the version by exactly 1 and adds exactly one entry, at index 0 or at the end; the other entries keep their order and their resolutions; the new entry resolves to the built rule; the side table only grows and stays dense |
| `Registration.ProxyCategoryMisread` | warn/warn.py:226-227 | a rule registered with category `ProxyWarning`, line 0 and no emitter pattern is accepted, and reading it back raises `KeyError(0)` |
| `Registration.ProxyCategoryAliases` | warn/warn.py:226-227 | a rule registered with category `ProxyWarning`, no emitter pattern and a line k that is a side-table key is accepted, and reads back as the emitter rule stored under k, not as itself |
| `Registration.DefaultRuleMatchesAll` | warn/warn.py:234-235 | `filterwarnings(action)` with all other arguments defaulted stores a five-field rule that every Warning subclass matches, at every line, from every module and emitter |
| `Dispatch.ModuleFromFilenameMeaning` | warn/warn.py:42-45 | with no module given, the module is `"<unknown>"` for an empty file name, and otherwise the file name less a final `.py` in any case |
| `Dispatch.SelectFromPicked` | warn/warn.py:62-74 | the scan picks entry k with rule r exactly when entry k resolves to r, r matches, and every earlier entry resolves to a rule that does not match |
| `Dispatch.SelectFromNoMatch` | warn/warn.py:62-76 | the scan finds no rule exactly when every entry resolves and does not match |
| `Dispatch.SelectFromError` | warn/warn.py:62-73 | the scan raises e exactly when, after entries that do not match, it reaches an entry whose lookup or test raises e |
| `Dispatch.MemoRefreshed` | warn/warn.py:46-50 | after a call the registry carries the current version; a stale registry has lost every earlier key; a current one only gains keys; the once-registry only gains this call's `(text, category)` |
| `Dispatch.StaleMemoForgotten` | warn/warn.py:46-50 | a registry whose stamp differs from the version (version >= 1) behaves exactly like a fresh registry with stamp 0 |
| `Dispatch.MarkedKeyIsSilent` | warn/warn.py:57-60 | a key already marked in the refreshed registry returns silently and changes neither the registry nor the once-registry |
| `Dispatch.FirstMatchDecides` | warn/warn.py:62-74 | with the key unmarked, the action applied is that of the first entry whose resolved rule meets all five conditions |
| `Dispatch.DefaultWhenNoMatch` | warn/warn.py:75-76 | with the key unmarked and no entry matching, the default action applies |
| `Dispatch.ActionEffects` | warn/warn.py:78-112 | the effect of each action: `ignore` marks and stays silent; `error` raises and marks nothing; `once` marks and shows only a new `(text, category)` and records it; `always` shows without marking; `module` marks key and any-line key and shows only if the any-line key was unmarked and the line is not 0; `default` marks and shows; `custom` shows; anything else raises `RuntimeError` |
| `Dispatch.ErrorRaisesAgain` | warn/warn.py:87-88 | under `error` nothing is marked, so the same call raises again and changes nothing |
| `Dispatch.NewFrontRuleDecides` | warn/warn.py:262-266 | after a rule is registered at the front, every call it matches gets its action, even from a call site whose registry had the key marked |
| `Dispatch.OnceEmitsAtMostOnce` | warn/warn.py:90-95 | over any run of calls sharing the once-registry, the `once` action shows a given `(text, category)` at most once, and never if it was already recorded |
| `Dispatch.ModuleEmitsAtMostOnce` | warn/warn.py:98-103 | over any run of calls from one call site against an unchanged store, the `module` action shows a given `(text, category)` at most once, whatever the lines |
| `Entry.CategoryResolution` | warn/warn.py:153-160 | the category is a Warning subclass or the call raises `TypeError`: a Warning instance imposes its class, no category means `UserWarning`, a non-class is rejected |
| `Entry.FilenameRules` | warn/warn.py:192-205 | `.pyc` becomes `.py` and other names are kept; with no `__file__`, `__main__` takes `sys.argv[0]` (an empty argv raises `IndexError`; no argv means `"__main__"`) and other modules take their own name; the file name is empty only if the module name is |
| `Entry.PrepareCallMeaning` | warn/warn.py:153-208 | `warn` passes the module and emitter names of the frames found (`sys`'s when missing, `"<string>"` without `__name__`), line 1 when the call site is missing, and a checked category; it fails only on the category or an empty argv |
| `Entry.PreparedCallsTestCleanly` | warn/warn.py:171-180 | a call made through `warn` always has an emitter module, so no filter test raises |
| `Warnings.Registry.constructor` | warn/warn.py:46-48 | a new registry has no version stamp (read as 0) and no keys |
| `Warnings.Engine.constructor` | warn/warn.py:19 | after import the version is 1 and the side table is empty |
| `Warnings.Engine.FiltersMutated` | warn/warn.py:22-23 | the version goes up by exactly 1 |
| `Warnings.Engine.SetProxyFilter` | warn/warn.py:214-222 | the returned entry and the new side table are those of `Rules.SetProxy` |
| `Warnings.Engine.FilterWarnings` | warn/warn.py:234-266 | on invalid arguments the assertion error is returned and nothing changes; otherwise the store becomes `Registration.Register` of the old store; the dense side table and positive version are kept |
| `Warnings.Engine.Scan` | warn/warn.py:62-76 | the loop returns the first match, the absence of one, or the exception raised, as `Dispatch.Select` defines them |
| `Warnings.Engine.ApplyAction` | warn/warn.py:78-117 | registry, once-registry and outcome change as `Dispatch.Apply` says, and a shown warning is appended to the log |
| `Warnings.Engine.WarnExplicit` | warn/warn.py:28-117 | the outcome, the registry and the once-registry are those of `Dispatch.WarnExplicit`; a shown warning is appended to the log |
| `Warnings.Engine.Warn` | warn/warn.py:139-208 | on a category or argv error nothing changes; otherwise the call site's registry, created if missing, is updated as `Dispatch.WarnExplicit` says for the call `Entry.PrepareCall` builds |

## Left out

- `_get_stack_frame` and the frame lookups in `warn` (warn/warn.py:120-136, 162-176) depend on `sys._getframe` and on interpreter-private helpers; the frames found (or their absence, the `ValueError` path) are inputs of `Entry.PrepareCall` and `Warnings.Engine.Warn`.
- `re.compile` and `Pattern.match` are the `reMatch` field of `Rules.Host`, and `issubclass` is its `isSub` field; `Host.Valid` requires only that an empty pattern matches everything, that subclassing is reflexive and transitive, and that `UserWarning` and `ProxyWarning` are subclasses of `Warning`. An invalid regex (`re.error`) is not modelled.
- `linecache.getlines` priming and the printing done by `showwarning` (warn/warn.py:84-85, 117) are I/O; a shown warning is appended to the engine's `shown` log. The `callable(showwarning)` check (warn/warn.py:113-115) concerns a collaborator and is not modelled.
- `sys.argv` and `sys.__dict__` are inputs (`argv`, `sysGlobals`).
- `Patch`, `patch` and `teardown` (warn/warn.py:270-300) swap functions of the `warnings` module at run time; there is nothing to model beyond a counter.
- main.py and tests/test_warn.py are a demonstration script and a test that depend on example packages that are not part of this model.
- `filterwarnings`' checks that `message` and `module` are strings and that `lineno` is an int are enforced by the Dafny types; the model assumes Python assertions are enabled (under `python -O` nothing is validated).
- `int(lineno)` in `warn_explicit` is the identity here, since line numbers are integers.
- A message that is neither a string nor a Warning instance is not modelled; `str(message)` of a Warning instance is the `text` field of `Dispatch.Message.Instance`.
- Case-insensitive suffix tests (`.lower()`) fold ASCII letters only.
- The filter list changes only through `Warnings.Engine.FilterWarnings`; other code writing to `warnings.filters` is represented only by the initial list given to the engine's constructor.
- Categories are identified by their qualified class name.
