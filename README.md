# dbt-oefsnowflake: persistent template variables and macro fallback

dbt-oefsnowflake extends dbt's Snowflake adapter in two ways. This project models both and proves their properties in Dafny.

1. **A persistent variable store.** `PersistentStorage` (connections.py) is a key/value table that lives for the whole run. Templates reach it through four accessors, `set_var`, `get_var`, `clear_vars` and `list_vars`, and through the store object itself, exposed as `global_context`. `enhanced_macro_context` and the adapter's `wrapped_generator` put these five bindings into template contexts. `pre_model_hook` empties the store before each model.
2. **A macro-name fallback rule.** `OEFSnowflakeAdapter.execute_macro` (impl.py) first merges keyword arguments into the override context in place. It then tries an ordered chain of macro names against the base adapter:
   - a name with neither prefix: `oefsnowflake__<name>`, then `<name>`;
   - an `oefsnowflake__` name: the name itself, then the name with `oefsnowflake__` rewritten to `snowflake__`;
   - a `snowflake__` name: the name alone.

   Only the last attempt's failure reaches the caller.

Files and modules:

- `ordered_dicts.dfy`, module `OrderedDicts`: Python dict semantics with string keys. `Dict<V>` is a subset type that pairs a table (`map`) with the insertion order (`seq`). The type guarantees that each key is listed once and that the order lists exactly the stored keys. The module gives `d.get`, `d[k] = v` (`Insert`), `d.update` (`Overlay`), and the class `DictObject` for dicts that are mutated in place.
- `values.dfy`, module `Values`: the Python values the model passes around, `Option`, and `Outcome` (success with a value, or any exception).
- `py_strings.dfy`, module `PyStrings`: `str.startswith` and `str.replace`.
- `connections.dfy`, module `Connections`: the class `PersistentStorage`, the four closures, the store-bindings dict literal, `EnhancedMacroContext`, and a replay of store calls with the last-writer-wins lemma.
- `impl.dfy`, module `Impl`: the candidate chain (`Candidates`), the try-until-success rule (`RunChain`), the kwargs merge, and the class `OEFSnowflakeAdapter` with `WrappedGenerator`, `PreModelHook` and `ExecuteMacro`.

Modelling choices:

- **The host adapter's `execute_macro`** is a function parameter `host: Call -> Outcome`. A `Call` records the macro name, the resolver, `project` (always None) and a snapshot of the override context. `ExecuteMacro` returns the final outcome and the list of host calls it made. Its postcondition equates the two with `Execute(name, ...)`, which is `RunChain(Candidates(name), ...)`. So the nested try/except blocks of the source are proved equal to one ordered list of candidates, tried until one succeeds.
- **The base adapter's `pre_model_hook`** is likewise a function parameter.
- **The singleton `global_context`** is one `PersistentStorage` object. The closures receive it as an argument, and the adapter holds it as a `const` field. The adapter's own accessor lambdas (impl.py:17-20) are different callables from the closures of `enhanced_macro_context` (connections.py:31-47): their parameters are named `k`, `v` and `d` rather than `key`, `value` and `default`. Called positionally the two behave alike, so `GetVar`, `SetVar`, `ClearVars` and `ListVars` model both; the `Binder` field of an accessor token records which definition a context holds, so the wrapped generator's context binds `AdapterLambda` accessors and `EnhancedMacroContext` binds `ContextClosure` ones.
- **The prefix rewrite.** A natural reading of the fallback rule is "strip the namespace prefix and put the vendor prefix in its place". The code (impl.py:86) uses `str.replace` instead, which rewrites every non-overlapping occurrence of `oefsnowflake__`. The model follows the code: `ReplaceAll` is `str.replace`. `FallbackSwapsPrefix` proves that the two readings agree whenever the rest of the name holds no second `oefsnowflake__`.
- **`execute_macro` drops `manifest`.** The method accepts `manifest` but never passes it to the base adapter. `ExecuteMacro` takes the parameter, and `Call` has no place for it.

## Model

| member | source | states |
|---|---|---|
| `Connections.PersistentStorage.constructor` | oef_system/python_package/dbt-oefsnowflake/dbt/adapters/oefsnowflake/connections.py:9-10 | A new store is empty. |
| `Connections.PersistentStorage.Set` | oef_system/python_package/dbt-oefsnowflake/dbt/adapters/oefsnowflake/connections.py:12-14 | Afterwards the key maps to the new value. Every other key keeps its presence and value. The key is listed exactly once among the keys. The method returns `''`. |
| `Connections.PersistentStorage.Get` | oef_system/python_package/dbt-oefsnowflake/dbt/adapters/oefsnowflake/connections.py:16-17 | Returns the stored value when the key is present, otherwise the default (None unless one is given). Changes nothing. |
| `Connections.PersistentStorage.Clear` | oef_system/python_package/dbt-oefsnowflake/dbt/adapters/oefsnowflake/connections.py:19-21 | Leaves the store empty and returns `''`. |
| `Connections.PersistentStorage.Keys` | oef_system/python_package/dbt-oefsnowflake/dbt/adapters/oefsnowflake/connections.py:23-24 | Returns the stored keys in insertion order, without duplicates: exactly the keys present, as many as there are entries. |
| `Connections.GetVar` | oef_system/python_package/dbt-oefsnowflake/dbt/adapters/oefsnowflake/connections.py:31-33 | `get_var` returns the stored value, or the default (None unless given) when the key is absent. |
| `Connections.SetVar` | oef_system/python_package/dbt-oefsnowflake/dbt/adapters/oefsnowflake/connections.py:35-38 | `set_var` writes through to the shared store (`d[k] = v`) and returns `''`. |
| `Connections.ClearVars` | oef_system/python_package/dbt-oefsnowflake/dbt/adapters/oefsnowflake/connections.py:40-43 | `clear_vars` empties the shared store and returns `''`. |
| `Connections.ListVars` | oef_system/python_package/dbt-oefsnowflake/dbt/adapters/oefsnowflake/connections.py:45-47 | `list_vars` returns exactly the stored keys, once each, in insertion order. |
| `Connections.EnhancedMacroContext` | oef_system/python_package/dbt-oefsnowflake/dbt/adapters/oefsnowflake/connections.py:49-62 | The result holds exactly the five store bindings plus the keys of the macro's own context, if it has one. On a name clash the macro's value wins. Otherwise each binding is its accessor or the store. Without a macro context the result is exactly the five bindings. With one, the order is the five binding names in source order followed by the macro's new keys in the macro's order. The accessors bound are the closures, not the adapter's lambdas. |
| `Connections.LastWriterWins` | oef_system/python_package/dbt-oefsnowflake/dbt/adapters/oefsnowflake/connections.py:12-21 | After any run of `set` and `clear` calls, `get(k, d)` returns the value of the latest `set` of `k`. It returns `d` if a `clear` came after that `set`, and the earlier value if neither call happened. |
| `Connections.ClearLeavesEmpty` | oef_system/python_package/dbt-oefsnowflake/dbt/adapters/oefsnowflake/connections.py:19-21 | Whatever came before, a run of store calls that ends with `clear` leaves the store empty. |
| `OrderedDicts.InsertGet` | oef_system/python_package/dbt-oefsnowflake/dbt/adapters/oefsnowflake/connections.py:13 | After `d[key] = value`, reading `key` gives `value` whatever the default. Every other key reads as before. |
| `OrderedDicts.InsertListsKeyOnce` | oef_system/python_package/dbt-oefsnowflake/dbt/adapters/oefsnowflake/connections.py:12-13 | After an insert or an overwrite, the key occurs exactly once in the dict's key list. |
| `OrderedDicts.KeyCount` | oef_system/python_package/dbt-oefsnowflake/dbt/adapters/oefsnowflake/connections.py:23-24 | The key list is as long as the number of entries. |
| `OrderedDicts.OverlayEntries` | oef_system/python_package/dbt-oefsnowflake/dbt/adapters/oefsnowflake/connections.py:59-60 | After `d.update(other)`, a key is present iff it was in `d` or in `other`. The value from `other` wins; keys only in `d` keep their value. |
| `OrderedDicts.OverlayOrder` | oef_system/python_package/dbt-oefsnowflake/dbt/adapters/oefsnowflake/connections.py:59-60 | `d.update(other)` keeps the keys of `d` in place and appends other's new keys in other's order. |
| `OrderedDicts.InsertAllAppend` | oef_system/python_package/dbt-oefsnowflake/dbt/adapters/oefsnowflake/impl.py:29-33 | Updating with one more key is the same as the shorter update followed by one more assignment. So the five assignments of `wrapped_generator` are one update. |
| `Impl.OEFSnowflakeAdapter.constructor` | oef_system/python_package/dbt-oefsnowflake/dbt/adapters/oefsnowflake/impl.py:14-21 | The adapter is bound to the shared store and has no host context generator yet. |
| `Impl.OEFSnowflakeAdapter.SetMacroContextGenerator` | oef_system/python_package/dbt-oefsnowflake/dbt/adapters/oefsnowflake/impl.py:23-25 | Remembers the host's context generator. |
| `Impl.OEFSnowflakeAdapter.WrappedGenerator` | oef_system/python_package/dbt-oefsnowflake/dbt/adapters/oefsnowflake/impl.py:27-34 | The host's context dict, updated in place with the five store bindings. |
| `Impl.WrappedContextBindings` | oef_system/python_package/dbt-oefsnowflake/dbt/adapters/oefsnowflake/impl.py:27-34 | In the wrapped context the five names are bound to the four accessors and the store, overriding any host entry of the same name; every host key stays present and no other key appears. |
| `Impl.WrappedContextKeepsHost` | oef_system/python_package/dbt-oefsnowflake/dbt/adapters/oefsnowflake/impl.py:27-34 | Every other host entry is unchanged and keeps its position; binding names the host did not already have are appended after the host keys, in binding order. |
| `Impl.OEFSnowflakeAdapter.PreModelHook` | oef_system/python_package/dbt-oefsnowflake/dbt/adapters/oefsnowflake/impl.py:46-48 | Leaves the store empty and returns what the base adapter's hook returns. |
| `Impl.MergeKwargsEntries` | oef_system/python_package/dbt-oefsnowflake/dbt/adapters/oefsnowflake/impl.py:55-60 | With `kwargs` None or empty, the context is unchanged. Otherwise every keyword argument is copied in and `kwargs` maps to the whole dict. Every other entry is unchanged, and no other key appears. |
| `Impl.OEFSnowflakeAdapter.ExecuteMacro` | oef_system/python_package/dbt-oefsnowflake/dbt/adapters/oefsnowflake/impl.py:50-101 | The caller's override dict, if any, is merged in place. The outcome and the host calls equal those of trying `Candidates(name)` in order with the merged context (an empty dict when None was passed). |
| `Impl.RunCandidates` | oef_system/python_package/dbt-oefsnowflake/dbt/adapters/oefsnowflake/impl.py:64-101 | The nested try/except blocks, written out branch by branch as in the source, make the same host calls in the same order and return the same outcome as trying `Candidates(name)` in order with the merged context. |
| `Impl.Candidates` | oef_system/python_package/dbt-oefsnowflake/dbt/adapters/oefsnowflake/impl.py:64-93 | One or two names, two different names when there are two, and always including the requested name. There is exactly one iff the name starts with `snowflake__`. The first starts with `oefsnowflake__` iff the name does not start with `snowflake__`. A name without the namespace prefix is tried last. A namespaced name is tried first and its fallback starts with `snowflake__`. |
| `Impl.RunChain` | oef_system/python_package/dbt-oefsnowflake/dbt/adapters/oefsnowflake/impl.py:64-101 | Calls the candidates in order with the same context and `project=None`. Every call but the last failed. The last call's outcome is the result. Stopping before the end implies success, so a failure means every candidate failed. |
| `Impl.UnprefixedTriesNamespacedFirst` | oef_system/python_package/dbt-oefsnowflake/dbt/adapters/oefsnowflake/impl.py:64-75 | For a name with neither prefix, `oefsnowflake__<name>` is tried first. Its success is returned at once. Its failure is swallowed, and then the name itself is tried exactly once and decides the outcome. |
| `Impl.NamespacedFallsBackToVendor` | oef_system/python_package/dbt-oefsnowflake/dbt/adapters/oefsnowflake/impl.py:77-93 | A namespaced name is tried as given. On failure, the name with `oefsnowflake__` replaced by `snowflake__` is tried and decides the outcome. |
| `Impl.VendorNameTriedOnce` | oef_system/python_package/dbt-oefsnowflake/dbt/adapters/oefsnowflake/impl.py:96-101 | A `snowflake__` name gets exactly one host call, with the name unchanged, and that call's outcome is returned. |
| `Impl.AtMostTwoCalls` | oef_system/python_package/dbt-oefsnowflake/dbt/adapters/oefsnowflake/impl.py:50-101 | Every execution makes one or two host calls. All of them carry the same merged context and `project=None`. |
| `Impl.FallbackSwapsPrefix` | oef_system/python_package/dbt-oefsnowflake/dbt/adapters/oefsnowflake/impl.py:86 | For `oefsnowflake__<rest>` with no further `oefsnowflake__` in `rest`, the fallback is `snowflake__<rest>`. |
| `PyStrings.ReplaceAllAbsent` | oef_system/python_package/dbt-oefsnowflake/dbt/adapters/oefsnowflake/impl.py:86 | `str.replace` leaves a string without the pattern unchanged. |
| `PyStrings.ReplaceAllLeading` | oef_system/python_package/dbt-oefsnowflake/dbt/adapters/oefsnowflake/impl.py:86 | A leading occurrence becomes the replacement; the rest is rewritten independently. |
| `PyStrings.LeadingReplaceShortens` | oef_system/python_package/dbt-oefsnowflake/dbt/adapters/oefsnowflake/impl.py:86 | Replacing a leading `oefsnowflake__` with the shorter `snowflake__` gives a strictly shorter name, so the fallback never repeats the first attempt. |

## Left out

- `OEFSnowflakeCredentials` and `OEFSnowflakeConnectionManager` (connections.py:64-70): type-name overrides of host classes with no logic.
- `set_macro_resolver` (impl.py:38-40) is a pass-through to the base class. `type()` (impl.py:42-44) returns a constant.
- The `print` diagnostics in impl.py: console output with no effect on results.
- `__init__.py` plugin registration, `setup.py` packaging, and the functional test classes: host-framework harness with no logic of this package.
- What the host does. Macro execution, SQL, connections, the base `pre_model_hook` and the host's context generator are foreign code. `execute_macro` and `pre_model_hook` of the base class are function parameters. `WrappedGenerator` receives the dict the host generator returned, rather than calling the generator.
- Side effects of a host macro execution: a macro that calls `set_var` or changes the context while it runs. The host function is pure in this model.
- Handing `wrapped_generator` to the base class (impl.py:36): host registration, not modelled.
- Exception types and messages. Every exception is one `Failure`, because the code catches `Exception` broadly. `BaseException` subclasses that are not `Exception` (KeyboardInterrupt, SystemExit) escape `except Exception` in the source and end `execute_macro` at once, with no fallback; the model has no such outcome, and a `Failure` always falls back.
- The process-wide singleton and any concurrency. The store is one object, passed explicitly.
- The unused parameters `config`, `manifest` and `package_name` of `enhanced_macro_context`.
- Python values: dict keys are strings, and every other object is an opaque `HostObject`. `macro.context` is a dict with string keys. The closures and lambdas are tokens (`Callable(SetVarFn, ContextClosure)` and so on), not function values.
- Aliasing of the kwargs dict. `context_override['kwargs'] = kwargs` stores a reference to the caller's dict; the model stores a snapshot. `execute_macro` never mutates `kwargs` after storing it.
- `Connections.GetVar`: keyword calls are not modelled. A template may call the closures as `get_var('x', default=1)` or `set_var(key='a', value=1)`; the same keyword calls raise TypeError against the adapter's lambdas, whose parameters are `k`, `v` and `d`. The model covers positional calls, where the two agree, and the `Binder` tag says which definition a context exposes.
- `str.replace` with an empty pattern: not modelled, because the source only replaces the constant `oefsnowflake__`.
