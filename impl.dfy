/** The adapter (impl.py): it injects the store's accessors into every generated
    template context, clears the store before each model, and resolves a macro
    name through a short chain of candidates tried against the host adapter.
    The host's own `execute_macro` is a function from a call to its outcome. */
module Impl {
  import opened OrderedDicts
  import opened Values
  import opened PyStrings
  import opened Connections

  const OefPrefix: string := "oefsnowflake__"
  const SnowflakePrefix: string := "snowflake__"

  /** The macro names tried, in order, for a requested name: a name with neither
      prefix tries its `oefsnowflake__` variant first and then itself; a name with
      the `oefsnowflake__` prefix tries itself and then its `snowflake__` rewrite;
      a `snowflake__` name is tried alone. */
  function Candidates(name: string): (r: seq<string>)
    ensures 1 <= |r| <= 2
    ensures name in r
    ensures |r| == 1 <==> StartsWith(name, SnowflakePrefix)
    ensures |r| == 2 ==> r[0] != r[1]
    ensures StartsWith(r[0], OefPrefix) <==> !StartsWith(name, SnowflakePrefix)
    ensures !StartsWith(name, OefPrefix) ==> r[|r| - 1] == name
    ensures StartsWith(name, OefPrefix) ==> r[0] == name && StartsWith(r[1], SnowflakePrefix)
  {
    if !StartsWith(name, OefPrefix) && !StartsWith(name, SnowflakePrefix) then
      [OefPrefix + name, name]
    else if StartsWith(name, OefPrefix) then
      assert name[..|OefPrefix|][0] == 'o';
      LeadingReplaceShortens(name, OefPrefix, SnowflakePrefix);
      assert name == OefPrefix + name[|OefPrefix|..];
      ReplaceAllLeading(OefPrefix, name[|OefPrefix|..], SnowflakePrefix);
      [name, ReplaceAll(name, OefPrefix, SnowflakePrefix)]
    else
      [name]
  }

  /** The arguments of one call to the host's `execute_macro`. */
  datatype Call = Call(macroName: string, macroResolver: Value, project: Value, contextOverride: Dict<Value>)

  /** What an `execute_macro` call returns or raises, and the host calls it made. */
  datatype Execution = Execution(result: Outcome, calls: seq<Call>)

  /** Tries `names` in order until one succeeds; the failures of all but the last
      are swallowed, and the last one tried decides the outcome. */
  function RunChain(names: seq<string>, macroResolver: Value, context: Dict<Value>, host: Call -> Outcome): (r: Execution)
    requires names != []
    ensures 1 <= |r.calls| <= |names|
    ensures forall i :: 0 <= i < |r.calls| ==> r.calls[i] == Call(names[i], macroResolver, NoneValue, context)
    ensures r.result == host(r.calls[|r.calls| - 1])
    ensures forall i :: 0 <= i < |r.calls| - 1 ==> host(r.calls[i]).Failure?
    ensures |r.calls| < |names| ==> r.result.Success?
    decreases |names|
  {
    var call := Call(names[0], macroResolver, NoneValue, context);
    if |names| == 1 || host(call).Success? then Execution(host(call), [call])
    else
      var rest := RunChain(names[1..], macroResolver, context, host);
      var calls := [call] + rest.calls;
      assert forall i :: 1 <= i < |calls| ==> calls[i] == rest.calls[i - 1];
      Execution(rest.result, calls)
  }

  /** What `execute_macro(name, ...)` does once the context is merged. */
  function Execute(name: string, macroResolver: Value, context: Dict<Value>, host: Call -> Outcome): Execution
  {
    RunChain(Candidates(name), macroResolver, context, host)
  }

  /** Python's `if kwargs:` for an optional dict. */
  predicate Truthy(kwargs: Option<Dict<Value>>)
  {
    kwargs.Some? && kwargs.value.order != []
  }

  /** The override context after the keyword arguments are merged into it. */
  function MergeKwargs(context: Dict<Value>, kwargs: Option<Dict<Value>>): Dict<Value>
  {
    if Truthy(kwargs) then Insert(Overlay(context, kwargs.value), "kwargs", DictValue(kwargs.value))
    else context
  }

  /** Merging copies every keyword argument into the context, binds `kwargs` to the whole
      dict, and leaves every other entry alone; without keyword arguments nothing changes. */
  lemma MergeKwargsEntries(context: Dict<Value>, kwargs: Option<Dict<Value>>)
    ensures !Truthy(kwargs) ==> MergeKwargs(context, kwargs) == context
    ensures Truthy(kwargs) ==>
      var m, kw := MergeKwargs(context, kwargs), kwargs.value;
      && (forall k :: k in m.entries <==> k == "kwargs" || k in kw.entries || k in context.entries)
      && m.entries["kwargs"] == DictValue(kw)
      && (forall k :: k != "kwargs" && k in kw.entries ==> m.entries[k] == kw.entries[k])
      && (forall k :: k != "kwargs" && k !in kw.entries && k in context.entries ==> m.entries[k] == context.entries[k])
  {
    if Truthy(kwargs) {
      OverlayEntries(context, kwargs.value);
    }
  }

  /** The context the wrapped generator hands to templates: every host key and every
      store binding is present, and the five store bindings win over the host's entries. */
  lemma WrappedContextBindings(hostContext: Dict<Value>)
    ensures var c := Overlay(hostContext, StoreBindings(AdapterLambda));
      && (forall k :: k in c.entries <==> k in hostContext.entries || k in StoreBindingNames)
      && c.entries["set_var"] == Callable(SetVarFn, AdapterLambda)
      && c.entries["get_var"] == Callable(GetVarFn, AdapterLambda)
      && c.entries["clear_vars"] == Callable(ClearVarsFn, AdapterLambda)
      && c.entries["list_vars"] == Callable(ListVarsFn, AdapterLambda)
      && c.entries["global_context"] == StoreObject
  {
    OverlayEntries(hostContext, StoreBindings(AdapterLambda));
  }

  /** The host's other entries pass through unchanged and keep their place; the store
      bindings the host did not already have follow them, in binding order. */
  lemma WrappedContextKeepsHost(hostContext: Dict<Value>)
    ensures var c := Overlay(hostContext, StoreBindings(AdapterLambda));
      && (forall k :: k in hostContext.entries && k !in StoreBindingNames ==> c.entries[k] == hostContext.entries[k])
      && c.order == hostContext.order + NewKeys(StoreBindingNames, hostContext.entries)
  {
    OverlayEntries(hostContext, StoreBindings(AdapterLambda));
    OverlayOrder(hostContext, StoreBindings(AdapterLambda));
  }

  /** For a name with neither prefix, the namespaced variant is tried first; its success
      is returned at once, and its failure leads to exactly one try of the name itself. */
  lemma UnprefixedTriesNamespacedFirst(name: string, macroResolver: Value, context: Dict<Value>, host: Call -> Outcome)
    requires !StartsWith(name, OefPrefix) && !StartsWith(name, SnowflakePrefix)
    ensures var first, second := Call(OefPrefix + name, macroResolver, NoneValue, context),
                                 Call(name, macroResolver, NoneValue, context);
      Execute(name, macroResolver, context, host) ==
        if host(first).Success? then Execution(host(first), [first])
        else Execution(host(second), [first, second])
  {
  }

  /** A namespaced name is tried as given; on failure its `snowflake__` rewrite is tried
      and decides the outcome. */
  lemma NamespacedFallsBackToVendor(name: string, macroResolver: Value, context: Dict<Value>, host: Call -> Outcome)
    requires StartsWith(name, OefPrefix)
    ensures var first, second := Call(name, macroResolver, NoneValue, context),
                                 Call(ReplaceAll(name, OefPrefix, SnowflakePrefix), macroResolver, NoneValue, context);
      Execute(name, macroResolver, context, host) ==
        if host(first).Success? then Execution(host(first), [first])
        else Execution(host(second), [first, second])
  {
  }

  /** When the rest of a namespaced name holds no second `oefsnowflake__`, the fallback
      is the same name with the vendor prefix in place of the namespace prefix. */
  lemma FallbackSwapsPrefix(rest: string)
    requires !Occurs(rest, OefPrefix)
    ensures Candidates(OefPrefix + rest) == [OefPrefix + rest, SnowflakePrefix + rest]
  {
    ReplaceAllLeading(OefPrefix, rest, SnowflakePrefix);
    ReplaceAllAbsent(rest, OefPrefix, SnowflakePrefix);
  }

  /** A `snowflake__` name gets exactly one call, with the name unchanged. */
  lemma VendorNameTriedOnce(name: string, macroResolver: Value, context: Dict<Value>, host: Call -> Outcome)
    requires StartsWith(name, SnowflakePrefix)
    ensures var only := Call(name, macroResolver, NoneValue, context);
      Execute(name, macroResolver, context, host) == Execution(host(only), [only])
  {
  }

  /** Every execution makes one or two host calls, all with the same context and no project. */
  lemma AtMostTwoCalls(name: string, macroResolver: Value, context: Dict<Value>, host: Call -> Outcome)
    ensures var e := Execute(name, macroResolver, context, host);
      && 1 <= |e.calls| <= 2
      && forall c :: c in e.calls ==> c.contextOverride == context && c.project == NoneValue
  {
  }

  /** The try/except part of `execute_macro`: the candidate names are called in turn with
      the merged context until one succeeds or the last one has been tried. */
  method RunCandidates(macroName: string, macroResolver: Value, merged: Dict<Value>, host: Call -> Outcome)
    returns (result: Outcome, calls: seq<Call>)
    ensures Execution(result, calls) == Execute(macroName, macroResolver, merged, host)
  {
    calls := [];
    if !StartsWith(macroName, OefPrefix) && !StartsWith(macroName, SnowflakePrefix) {
      UnprefixedTriesNamespacedFirst(macroName, macroResolver, merged, host);
      var call := Call(OefPrefix + macroName, macroResolver, NoneValue, merged);
      calls := [call];
      result := host(call);
      if result.Success? {
        return;
      }
    }

    if StartsWith(macroName, OefPrefix) {
      NamespacedFallsBackToVendor(macroName, macroResolver, merged, host);
      var call := Call(macroName, macroResolver, NoneValue, merged);
      calls := calls + [call];
      result := host(call);
      if result.Success? {
        return;
      }
      var fallback := ReplaceAll(macroName, OefPrefix, SnowflakePrefix);
      call := Call(fallback, macroResolver, NoneValue, merged);
      calls := calls + [call];
      result := host(call);
      return;
    }

    if StartsWith(macroName, SnowflakePrefix) {
      VendorNameTriedOnce(macroName, macroResolver, merged, host);
    }
    var call := Call(macroName, macroResolver, NoneValue, merged);
    calls := calls + [call];
    result := host(call);
  }

  class OEFSnowflakeAdapter {
    /** The shared store (`global_context`) the adapter's accessors are bound to. */
    const store: PersistentStorage
    /** The host's context generator, once one has been installed. */
    var originalMacroContextGenerator: Value

    constructor (store: PersistentStorage)
      ensures this.store == store
      ensures originalMacroContextGenerator == NoneValue
    {
      this.store := store;
      originalMacroContextGenerator := NoneValue;
    }

    /** `set_macro_context_generator`: remembers the host's generator; the host is then
        given `wrapped_generator` (below) in its place. */
    method SetMacroContextGenerator(generator: Value)
      modifies this
      ensures originalMacroContextGenerator == generator
    {
      originalMacroContextGenerator := generator;
    }

    /** `wrapped_generator`: `context` is the dict the host's generator returned; the five
        store bindings are assigned into it in place. */
    method WrappedGenerator(context: DictObject<Value>)
      modifies context
      ensures context.value == Overlay(old(context.value), StoreBindings(AdapterLambda))
    {
      ghost var d, src := context.value, StoreBindings(AdapterLambda).entries;
      context.SetItem("set_var", Callable(SetVarFn, AdapterLambda));
      InsertAllAppend(d, [], "set_var", src);
      context.SetItem("get_var", Callable(GetVarFn, AdapterLambda));
      InsertAllAppend(d, ["set_var"], "get_var", src);
      context.SetItem("clear_vars", Callable(ClearVarsFn, AdapterLambda));
      InsertAllAppend(d, ["set_var", "get_var"], "clear_vars", src);
      context.SetItem("list_vars", Callable(ListVarsFn, AdapterLambda));
      InsertAllAppend(d, ["set_var", "get_var", "clear_vars"], "list_vars", src);
      context.SetItem("global_context", StoreObject);
      InsertAllAppend(d, ["set_var", "get_var", "clear_vars", "list_vars"], "global_context", src);
    }

    /** `pre_model_hook`: empties the store, then defers to the base adapter's hook. */
    method PreModelHook(config: Value, baseHook: Value -> Value) returns (r: Value)
      modifies store
      ensures store.storage == Empty()
      ensures r == baseHook(config)
    {
      var ignored := store.Clear();
      r := baseHook(config);
    }

    /** `execute_macro`: merges `kwargs` into the caller's override context in place (into a
        new dict when there is none), then runs the candidate names against the host. */
    method ExecuteMacro(macroName: string, macroResolver: Value, contextOverride: DictObject?<Value>,
                        kwargs: Option<Dict<Value>>, manifest: Value, host: Call -> Outcome)
      returns (result: Outcome, calls: seq<Call>)
      modifies contextOverride
      ensures contextOverride != null ==> contextOverride.value == MergeKwargs(old(contextOverride.value), kwargs)
      ensures Execution(result, calls) ==
              Execute(macroName, macroResolver,
                      MergeKwargs(if contextOverride == null then Empty() else old(contextOverride.value), kwargs),
                      host)
    {
      var context := contextOverride;
      if context == null {
        context := new DictObject();
      }
      if Truthy(kwargs) {
        context.Update(kwargs.value);
        context.SetItem("kwargs", DictValue(kwargs.value));
      }

      result, calls := RunCandidates(macroName, macroResolver, context.value, host);
    }
  }
}
